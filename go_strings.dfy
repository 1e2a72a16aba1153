/** The few operations of Go's `strings` package that the gateway's parsing depends on,
    with the semantics Go gives them, on strings of characters. */
module GoStrings {

  /** Go's `unicode.IsSpace`: the Unicode White_Space property. */
  predicate IsSpace(c: char) {
    ('\t' <= c <= '\r') || c == ' ' || c == '\U{0085}' || c == '\U{00A0}' ||
    c == '\U{1680}' || ('\U{2000}' <= c <= '\U{200A}') || c == '\U{2028}' || c == '\U{2029}' ||
    c == '\U{202F}' || c == '\U{205F}' || c == '\U{3000}'
  }

  predicate AllSpace(s: string) {
    forall i | 0 <= i < |s| :: IsSpace(s[i])
  }

  /** Drops leading white space. */
  function TrimLeftSpace(s: string): (r: string)
    ensures |r| <= |s| && r == s[|s| - |r|..]
    ensures r == [] || !IsSpace(r[0])
  {
    if |s| > 0 && IsSpace(s[0]) then TrimLeftSpace(s[1..]) else s
  }

  /** What `TrimLeftSpace` drops is white space. */
  lemma {:induction false} TrimLeftSpaceCut(s: string)
    ensures AllSpace(s[..|s| - |TrimLeftSpace(s)|])
  {
    if |s| > 0 && IsSpace(s[0]) {
      TrimLeftSpaceCut(s[1..]);
      var n := |s| - |TrimLeftSpace(s)|;
      forall i | 0 <= i < n ensures IsSpace(s[..n][i]) {
        if i > 0 {
          assert s[..n][i] == s[1..][..n - 1][i - 1];
        }
      }
    }
  }

  /** Drops trailing white space. */
  function TrimRightSpace(s: string): (r: string)
    ensures r <= s
    ensures r == [] || !IsSpace(r[|r| - 1])
  {
    if |s| > 0 && IsSpace(s[|s| - 1]) then TrimRightSpace(s[..|s| - 1]) else s
  }

  /** What `TrimRightSpace` drops is white space. */
  lemma {:induction false} TrimRightSpaceCut(s: string)
    ensures AllSpace(s[|TrimRightSpace(s)|..])
  {
    if |s| > 0 && IsSpace(s[|s| - 1]) {
      var t := s[..|s| - 1];
      TrimRightSpaceCut(t);
      var m := |TrimRightSpace(s)|;
      forall i | 0 <= i < |s| - m ensures IsSpace(s[m..][i]) {
        if m + i < |s| - 1 {
          assert s[m..][i] == t[m..][i];
        }
      }
    }
  }

  lemma AllSpaceConcat(a: string, b: string)
    ensures AllSpace(a + b) <==> AllSpace(a) && AllSpace(b)
  {
    if AllSpace(a) && AllSpace(b) {
      forall i | 0 <= i < |a + b| ensures IsSpace((a + b)[i]) {
        if i >= |a| { assert (a + b)[i] == b[i - |a|]; }
      }
    }
    if AllSpace(a + b) {
      forall i | 0 <= i < |a| ensures IsSpace(a[i]) {
        assert (a + b)[i] == a[i];
      }
      forall i | 0 <= i < |b| ensures IsSpace(b[i]) {
        assert (a + b)[|a| + i] == b[i];
      }
    }
  }

  /** Go's `strings.TrimSpace`: the text between the first and the last non-space character. */
  function TrimSpace(s: string): (r: string)
    ensures r == [] || (!IsSpace(r[0]) && !IsSpace(r[|r| - 1]))
    ensures r == [] <==> AllSpace(s)
  {
    var l := TrimLeftSpace(s);
    var r := TrimRightSpace(l);
    assert r != [] ==> r[0] == l[0];
    TrimSpaceEmpty(s);
    r
  }

  lemma TrimSpaceEmpty(s: string)
    ensures TrimRightSpace(TrimLeftSpace(s)) == [] <==> AllSpace(s)
  {
    if AllSpace(s) {
      TrimLeftSpaceAll(s);
    }
    if TrimRightSpace(TrimLeftSpace(s)) == [] {
      TrimmedAwayIsSpace(s);
    }
  }

  /** A string that trims to nothing is all white space. */
  lemma TrimmedAwayIsSpace(s: string)
    requires TrimRightSpace(TrimLeftSpace(s)) == []
    ensures AllSpace(s)
  {
    var l := TrimLeftSpace(s);
    var n := |s| - |l|;
    TrimLeftSpaceCut(s);
    TrimRightSpaceCut(l);
    assert l[|TrimRightSpace(l)|..] == l;
    assert l == s[n..];
    AllSpaceAround(s, n);
  }

  /** A string is white space when the parts before and after `n` are. */
  lemma AllSpaceAround(s: string, n: int)
    requires 0 <= n <= |s| && AllSpace(s[..n]) && AllSpace(s[n..])
    ensures AllSpace(s)
  {
    forall i | 0 <= i < |s| ensures IsSpace(s[i]) {
      if i < n {
        assert s[..n][i] == s[i];
      } else {
        assert s[n..][i - n] == s[i];
      }
    }
  }

  /** White space alone trims to nothing. */
  lemma {:induction false} TrimLeftSpaceAll(s: string)
    requires AllSpace(s)
    ensures TrimLeftSpace(s) == []
  {
    if |s| > 0 {
      assert IsSpace(s[0]);
      assert forall i | 0 <= i < |s| - 1 :: s[1..][i] == s[i + 1];
      TrimLeftSpaceAll(s[1..]);
    }
  }

  /** The text at `lo` in `s` is `sub`. */
  predicate InfixAt(s: string, sub: string, lo: int) {
    0 <= lo <= |s| - |sub| && s[lo..lo + |sub|] == sub
  }

  /** `TrimSpace` cuts off only white space, at both ends. */
  lemma {:induction false} TrimSpaceIsInfix(s: string)
    ensures exists lo :: InfixAt(s, TrimSpace(s), lo) && AllSpace(s[..lo])
                      && AllSpace(s[lo + |TrimSpace(s)|..])
  {
    var l := TrimLeftSpace(s);
    var lo := |s| - |l|;
    var r := TrimRightSpace(l);
    assert r == TrimSpace(s);
    TrimLeftSpaceCut(s);
    TrimRightSpaceCut(l);
    CutAround(s, l, r, lo);
  }

  /** `r`, a prefix of the suffix `l` of `s` starting at `lo`, sits at `lo` in `s`, and
      what follows it in `s` is what follows it in `l`. */
  lemma CutAround(s: string, l: string, r: string, lo: int)
    requires 0 <= lo <= |s| && l == s[lo..] && r <= l
    requires AllSpace(l[|r|..])
    ensures InfixAt(s, r, lo) && AllSpace(s[lo + |r|..])
  {
    assert s[lo + |r|..] == l[|r|..];
  }

  /** A string that starts with a non-space character keeps that first character when trimmed. */
  lemma TrimSpaceKeepsFirst(s: string)
    requires |s| > 0 && !IsSpace(s[0])
    ensures |TrimSpace(s)| > 0 && TrimSpace(s)[0] == s[0]
  {
    assert TrimLeftSpace(s) == s;
  }

  /** A string with no white space at either end is its own trim. */
  lemma TrimSpaceKeeps(s: string)
    requires s != [] && !IsSpace(s[0]) && !IsSpace(s[|s| - 1])
    ensures TrimSpace(s) == s
  {
    assert TrimLeftSpace(s) == s;
  }

  /** Go's `strings.TrimRight(s, cutset)`: drops trailing characters that are in `cutset`. */
  function TrimRight(s: string, cutset: set<char>): (r: string)
    ensures r <= s
    ensures forall i | |r| <= i < |s| :: s[i] in cutset
    ensures r == [] || r[|r| - 1] !in cutset
  {
    if |s| > 0 && s[|s| - 1] in cutset then TrimRight(s[..|s| - 1], cutset) else s
  }

  /** Go's `strings.TrimPrefix`: removes `prefix` once, if `s` starts with it. */
  function TrimPrefix(s: string, prefix: string): (r: string)
    ensures prefix <= s ==> s == prefix + r
    ensures !(prefix <= s) ==> r == s
  {
    if prefix <= s then s[|prefix|..] else s
  }

  /** Go's `strings.Contains`. */
  predicate Contains(s: string, sub: string) {
    exists i | 0 <= i <= |s| - |sub| :: InfixAt(s, sub, i)
  }

  /** Index of the first `c` in `s`, or `|s|` when there is none. */
  function IndexOf(s: string, c: char): (i: nat)
    ensures i <= |s|
    ensures i < |s| ==> s[i] == c
    ensures c !in s[..i]
  {
    if |s| == 0 then 0
    else if s[0] == c then 0
    else
      var j := IndexOf(s[1..], c);
      assert s[..j + 1] == [s[0]] + s[1..][..j];
      1 + j
  }

  /** Go's `strings.Split(s, sep)` for a one-character separator: the pieces between the
      separators, in order; an empty `s` gives one empty piece. */
  function Split(s: string, sep: char): (parts: seq<string>)
    ensures |parts| >= 1
    ensures forall k | 0 <= k < |parts| :: sep !in parts[k]
    decreases |s|
  {
    var i := IndexOf(s, sep);
    if i == |s| then
      assert s[..i] == s;
      [s]
    else
      [s[..i]] + Split(s[i + 1..], sep)
  }

  /** Go's `strings.Join(parts, sep)`. */
  function Join(parts: seq<string>, sep: char): string
    requires |parts| >= 1
  {
    if |parts| == 1 then parts[0] else parts[0] + [sep] + Join(parts[1..], sep)
  }

  /** The first separator of `a + [sep] + b` is the one after `a`. */
  lemma IndexOfAfter(a: string, sep: char, b: string)
    requires sep !in a
    ensures IndexOf(a + [sep] + b, sep) == |a|
  {
    var s := a + [sep] + b;
    var i := IndexOf(s, sep);
    assert s[|a|] == sep;
    assert forall k | 0 <= k < |a| :: s[k] == a[k];
  }

  /** Splitting after a separator-free head peels that head off. */
  lemma SplitCons(a: string, sep: char, b: string)
    requires sep !in a
    ensures Split(a + [sep] + b, sep) == [a] + Split(b, sep)
  {
    var s := a + [sep] + b;
    IndexOfAfter(a, sep, b);
    assert s[..|a|] == a;
    assert s[|a| + 1..] == b;
  }

  /** A separator-free string is a single piece. */
  lemma SplitNone(a: string, sep: char)
    requires sep !in a
    ensures Split(a, sep) == [a]
  {
    assert a[..|a|] == a;
  }

  /** Joining the pieces gives back the string. */
  lemma {:induction false} JoinSplit(s: string, sep: char)
    ensures Join(Split(s, sep), sep) == s
    decreases |s|
  {
    var i := IndexOf(s, sep);
    var parts := Split(s, sep);
    if i < |s| {
      var rest := Split(s[i + 1..], sep);
      assert parts == [s[..i]] + rest;
      assert parts[1..] == rest;
      JoinSplit(s[i + 1..], sep);
      assert Join(parts, sep) == s[..i] + [sep] + Join(rest, sep);
      assert s == s[..i] + [sep] + s[i + 1..];
    } else {
      assert parts == [s];
    }
  }

  /** Splitting a join of separator-free pieces gives back the pieces. */
  lemma {:induction false} SplitJoin(parts: seq<string>, sep: char)
    requires |parts| >= 1
    requires forall k | 0 <= k < |parts| :: sep !in parts[k]
    ensures Split(Join(parts, sep), sep) == parts
  {
    if |parts| == 1 {
      SplitNone(parts[0], sep);
    } else {
      SplitJoin(parts[1..], sep);
      SplitCons(parts[0], sep, Join(parts[1..], sep));
      assert parts == [parts[0]] + parts[1..];
    }
  }

  /** The pieces of `s` computed character by character: a separator starts a new piece,
      any other character joins the first piece. A reference definition for `Split`. */
  function Pieces(s: string, sep: char): (parts: seq<string>)
    ensures |parts| >= 1
  {
    if s == [] then [[]] else Prepend(s[0], sep, Pieces(s[1..], sep))
  }

  /** The pieces of a text one character longer: a separator starts a new piece in front,
      any other character goes to the front of the first piece. */
  function Prepend(c: char, sep: char, rest: seq<string>): (parts: seq<string>)
    requires |rest| >= 1
    ensures |parts| >= 1
  {
    if c == sep then [[]] + rest else [[c] + rest[0]] + rest[1..]
  }

  /** Only the first piece is touched, so appending more pieces commutes with it. */
  lemma PrependAppend(c: char, sep: char, x: seq<string>, y: seq<string>)
    requires |x| >= 1
    ensures Prepend(c, sep, x + y) == Prepend(c, sep, x) + y
  {
    var xy := x + y;
    assert xy[0] == x[0] && xy[1..] == x[1..] + y;
    if c == sep {
      assert [[]] + xy == ([[]] + x) + y;
    } else {
      assert [[c] + x[0]] + (x[1..] + y) == ([[c] + x[0]] + x[1..]) + y;
    }
  }

  lemma {:induction false} PiecesCons(a: string, sep: char, b: string)
    requires sep !in a
    ensures Pieces(a + [sep] + b, sep) == [a] + Pieces(b, sep)
  {
    var s := a + [sep] + b;
    if a == [] {
      assert s[0] == sep && s[1..] == b;
    } else {
      assert s[0] == a[0] && s[1..] == a[1..] + [sep] + b;
      PiecesCons(a[1..], sep, b);
      assert [a[0]] + a[1..] == a;
    }
  }

  lemma {:induction false} PiecesNone(a: string, sep: char)
    requires sep !in a
    ensures Pieces(a, sep) == [a]
  {
    if a != [] {
      PiecesNone(a[1..], sep);
      assert [a[0]] + a[1..] == a;
    }
  }

  /** `Split` and the character-by-character definition agree. */
  lemma {:induction false} SplitIsPieces(s: string, sep: char)
    ensures Split(s, sep) == Pieces(s, sep)
    decreases |s|
  {
    var i := IndexOf(s, sep);
    if i == |s| {
      assert s[..i] == s;
      PiecesNone(s, sep);
    } else {
      assert s == s[..i] + [sep] + s[i + 1..];
      PiecesCons(s[..i], sep, s[i + 1..]);
      SplitIsPieces(s[i + 1..], sep);
    }
  }

  /** One character in front of a text. */
  lemma PiecesPrepend(c: char, t: string, sep: char)
    ensures Pieces([c] + t, sep) == Prepend(c, sep, Pieces(t, sep))
  {
    assert ([c] + t)[0] == c && ([c] + t)[1..] == t;
  }

  lemma {:induction false} PiecesConcat(a: string, sep: char, b: string)
    ensures Pieces(a + [sep] + b, sep) == Pieces(a, sep) + Pieces(b, sep)
  {
    if a == [] {
      assert a + [sep] + b == [sep] + b;
      PiecesPrepend(sep, b, sep);
    } else {
      var c, t := a[0], a[1..];
      var u := t + [sep] + b;
      calc {
        Pieces(a + [sep] + b, sep);
        { assert a + [sep] + b == [c] + u; }
        Pieces([c] + u, sep);
        { PiecesPrepend(c, u, sep); }
        Prepend(c, sep, Pieces(u, sep));
        { PiecesConcat(t, sep, b); }
        Prepend(c, sep, Pieces(t, sep) + Pieces(b, sep));
        { PrependAppend(c, sep, Pieces(t, sep), Pieces(b, sep)); }
        Prepend(c, sep, Pieces(t, sep)) + Pieces(b, sep);
        { assert a == [c] + t; PiecesPrepend(c, t, sep); }
        Pieces(a, sep) + Pieces(b, sep);
      }
    }
  }

  /** A separator splits the text around it into the pieces of each side. */
  lemma SplitConcat(a: string, sep: char, b: string)
    ensures Split(a + [sep] + b, sep) == Split(a, sep) + Split(b, sep)
  {
    SplitIsPieces(a + [sep] + b, sep);
    SplitIsPieces(a, sep);
    SplitIsPieces(b, sep);
    PiecesConcat(a, sep, b);
  }

  /** The pieces around one more separator-free piece. */
  lemma SplitAround(a: string, mid: string, b: string, sep: char)
    requires sep !in mid
    ensures Split(a + [sep] + mid + [sep] + b, sep) == Split(a, sep) + [mid] + Split(b, sep)
  {
    assert a + [sep] + mid + [sep] + b == a + [sep] + (mid + [sep] + b);
    SplitConcat(a, sep, mid + [sep] + b);
    SplitCons(mid, sep, b);
  }

  /** A character found in none of the pieces, other than the separator, is not in their join. */
  lemma {:induction false} JoinAvoids(parts: seq<string>, sep: char, c: char)
    requires |parts| >= 1 && c != sep
    requires forall k | 0 <= k < |parts| :: c !in parts[k]
    ensures c !in Join(parts, sep)
  {
    if |parts| > 1 {
      JoinAvoids(parts[1..], sep, c);
    }
  }

  /** Text added to the last piece ends up at the end of the join. */
  lemma {:induction false} JoinExtendLast(parts: seq<string>, sep: char, x: string)
    requires |parts| >= 1
    ensures Join(parts[..|parts| - 1] + [parts[|parts| - 1] + x], sep) == Join(parts, sep) + x
  {
    var q := parts[..|parts| - 1] + [parts[|parts| - 1] + x];
    if |parts| > 1 {
      var tail := parts[1..];
      assert q[1..] == tail[..|tail| - 1] + [tail[|tail| - 1] + x];
      JoinExtendLast(tail, sep, x);
      assert Join(q, sep) == parts[0] + [sep] + (Join(tail, sep) + x);
    }
  }

  /** The first piece of a join is at its start. */
  lemma JoinStartsWithFirst(parts: seq<string>, sep: char)
    requires |parts| >= 1
    ensures parts[0] <= Join(parts, sep)
  {
  }

  /** Trimming stops at a last character outside the cut set. */
  lemma TrimRightKeeps(s: string, cutset: set<char>)
    requires s != [] && s[|s| - 1] !in cutset
    ensures TrimRight(s, cutset) == s
  {
  }
}
