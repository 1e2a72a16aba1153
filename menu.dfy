/** The directory document model shared by both versions of the gateway: the record a
    menu line describes (the menu entity of RFC 1436, appendix), what one line contributes
    to a listing, and how a listing is assembled from the lines in order. */
module Menu {
  import opened GoStrings

  /** One entry of a directory listing: type character, display string, selector,
      host and port, as they were cut out of the line. */
  datatype Record = Record(itemType: char, display: string, selector: string, host: string, port: string)

  /** The host, port and selector of the listing being rendered. */
  datatype Context = Context(host: string, port: string, selector: string)

  /** What one line of a reply contributes: nothing, the end of the listing, a record, or a
      crash of the handler (an index out of range on an empty first field). */
  datatype Step = Skip | Stop | Emit(record: Record) | Crash(line: string)

  /** The result of parsing a whole reply. */
  datatype Listing = Parsed(records: seq<Record>) | Crashed(line: string)

  /** The display text given to a line that has fewer than four fields. */
  const MalformedPrefix := "Malformed Line (Type 3 Error): "

  /** The display of a malformed line starts with the first letter of the prefix and ends
      with the last character of the line. */
  lemma MalformedDisplayEnds(trimmed: string)
    requires trimmed != []
    ensures var d := MalformedPrefix + trimmed; d[0] == 'M' && d[|d| - 1] == trimmed[|trimmed| - 1]
  {
  }

  /** A record whose display is empty is dropped. */
  function Keep(r: Record): (s: Step)
    ensures s == Skip <==> r.display == []
    ensures s != Skip ==> s == Emit(r)
  {
    if r.display == [] then Skip else Emit(r)
  }

  /** The listing `a` followed by the listing `b`; a crash ends everything. */
  function Then(a: Listing, b: Listing): Listing {
    match a
    case Crashed(_) => a
    case Parsed(rs) =>
      match b
      case Crashed(_) => b
      case Parsed(qs) => Parsed(rs + qs)
  }

  /** The listing made by processing the steps of the lines in order. */
  function Scan(steps: seq<Step>): Listing {
    if steps == [] then Parsed([])
    else
      match steps[0]
      case Skip => Scan(steps[1..])
      case Stop => Parsed([])
      case Crash(line) => Crashed(line)
      case Emit(r) => Then(Parsed([r]), Scan(steps[1..]))
  }

  /** Unfolds `Scan` once at the head of the steps. */
  lemma ScanCons(s: Step, rest: seq<Step>)
    ensures s == Skip ==> Scan([s] + rest) == Scan(rest)
    ensures s == Stop ==> Scan([s] + rest) == Parsed([])
    ensures s.Crash? ==> Scan([s] + rest) == Crashed(s.line)
    ensures s.Emit? ==> Scan([s] + rest) == Then(Parsed([s.record]), Scan(rest))
  {
    assert ([s] + rest)[1..] == rest;
  }

  /** A single step on its own: a record is listed alone. */
  lemma ScanSingle(s: Step)
    requires s.Emit?
    ensures Scan([s]) == Parsed([s.record])
  {
    ScanCons(s, []);
    assert [s] + [] == [s];
    assert [s.record] + [] == [s.record];
  }

  lemma ThenAssoc(a: Listing, b: Listing, c: Listing)
    ensures Then(Then(a, b), c) == Then(a, Then(b, c))
  {
    if a.Parsed? && b.Parsed? && c.Parsed? {
      assert a.records + b.records + c.records == a.records + (b.records + c.records);
    }
  }

  /** Records come out in the order of their lines: as long as no line ends the listing,
      the listing of two stretches of lines is the first one's followed by the second one's. */
  lemma {:induction false} ScanAppend(a: seq<Step>, b: seq<Step>)
    requires Stop !in a
    ensures Scan(a + b) == Then(Scan(a), Scan(b))
  {
    if a == [] {
      assert a + b == b;
      if Scan(b).Parsed? { assert [] + Scan(b).records == Scan(b).records; }
    } else {
      assert (a + b)[1..] == a[1..] + b;
      ScanAppend(a[1..], b);
      match a[0]
      case Emit(r) => ThenAssoc(Parsed([r]), Scan(a[1..]), Scan(b));
      case Skip =>
      case Crash(_) =>
    }
  }

  /** Nothing after a line that ends the listing contributes to it. */
  lemma {:induction false} ScanStop(a: seq<Step>, b: seq<Step>)
    ensures Scan(a + [Stop] + b) == Scan(a)
  {
    if a == [] {
      assert a + [Stop] + b == [Stop] + b;
    } else {
      assert (a + [Stop] + b)[1..] == a[1..] + [Stop] + b;
      ScanStop(a[1..], b);
    }
  }

  /** Every record of a listing is emitted by one of the lines. */
  lemma {:induction false} ScanRecordsEmitted(steps: seq<Step>, k: nat)
    requires Scan(steps).Parsed? && k < |Scan(steps).records|
    ensures Emit(Scan(steps).records[k]) in steps
  {
    var rest := Scan(steps[1..]);
    match steps[0]
    case Skip =>
      ScanRecordsEmitted(steps[1..], k);
    case Emit(r) =>
      if k > 0 {
        ScanRecordsEmitted(steps[1..], k - 1);
      }
  }

  /** A crash ends the listing: when no earlier step ends the listing or crashes, the
      whole listing is that crash, whatever comes after it. */
  lemma {:induction false} ScanCrash(a: seq<Step>, line: string, b: seq<Step>)
    requires forall j | 0 <= j < |a| :: a[j] != Stop && !a[j].Crash?
    ensures Scan(a + [Crash(line)] + b) == Crashed(line)
  {
    if a == [] {
      assert a + [Crash(line)] + b == [Crash(line)] + b;
      ScanCons(Crash(line), b);
    } else {
      assert (a + [Crash(line)] + b)[1..] == a[1..] + [Crash(line)] + b;
      assert forall j | 0 <= j < |a| - 1 :: a[1..][j] == a[j + 1];
      ScanCrash(a[1..], line, b);
    }
  }

  /** The first step that ends the listing or crashes decides: when it is a crash, the
      listing is that crash. */
  lemma ScanFirstCrash(steps: seq<Step>, i: nat)
    requires i < |steps| && steps[i].Crash?
    requires forall j | 0 <= j < i :: steps[j] != Stop && !steps[j].Crash?
    ensures Scan(steps) == Crashed(steps[i].line)
  {
    assert steps == steps[..i] + [Crash(steps[i].line)] + steps[i + 1..];
    ScanCrash(steps[..i], steps[i].line, steps[i + 1..]);
  }

  /** The records of a listing keep a property every emitted record has: when no step
      emits a record with an empty display, no listed record has one. */
  lemma ScanDisplays(steps: seq<Step>, k: nat)
    requires forall j | 0 <= j < |steps| :: steps[j].Emit? ==> steps[j].record.display != []
    requires Scan(steps).Parsed? && k < |Scan(steps).records|
    ensures Scan(steps).records[k].display != []
  {
    ScanRecordsEmitted(steps, k);
  }

  /** A line that contributes nothing can be left out. */
  lemma {:induction false} ScanSkip(a: seq<Step>, b: seq<Step>)
    ensures Scan(a + [Skip] + b) == Scan(a + b)
  {
    if a == [] {
      assert a + [Skip] + b == [Skip] + b;
      assert ([Skip] + b)[1..] == b;
      assert a + b == b;
    } else {
      assert (a + [Skip] + b)[1..] == a[1..] + [Skip] + b;
      assert (a + b)[1..] == a[1..] + b;
      ScanSkip(a[1..], b);
    }
  }

  /** The step of each line, in order, for a given way of classifying one line. */
  function Classified(lines: seq<string>, classify: string -> Step): seq<Step> {
    if lines == [] then [] else [classify(lines[0])] + Classified(lines[1..], classify)
  }

  lemma {:induction false} ClassifiedAppend(a: seq<string>, b: seq<string>, classify: string -> Step)
    ensures Classified(a + b, classify) == Classified(a, classify) + Classified(b, classify)
  {
    if a == [] {
      assert a + b == b;
    } else {
      assert (a + b)[0] == a[0];
      assert (a + b)[1..] == a[1..] + b;
      ClassifiedAppend(a[1..], b, classify);
    }
  }

  lemma {:induction false} ClassifiedAt(lines: seq<string>, k: nat, classify: string -> Step)
    requires k < |lines|
    ensures |Classified(lines, classify)| == |lines|
    ensures Classified(lines, classify)[k] == classify(lines[k])
  {
    if k > 0 {
      ClassifiedAt(lines[1..], k - 1, classify);
    } else if |lines| > 1 {
      ClassifiedAt(lines[1..], 0, classify);
    }
  }

  /** There is one step per line. */
  lemma {:induction false} ClassifiedLength(lines: seq<string>, classify: string -> Step)
    ensures |Classified(lines, classify)| == |lines|
  {
    if lines != [] {
      ClassifiedLength(lines[1..], classify);
    }
  }

  /** The steps of the lines from `i` on: the step of line `i`, then the rest. */
  lemma ClassifiedFrom(lines: seq<string>, i: nat, classify: string -> Step)
    requires i < |lines|
    ensures Classified(lines[i..], classify) == [classify(lines[i])] + Classified(lines[i + 1..], classify)
  {
    assert lines[i..][1..] == lines[i + 1..];
  }

  /** The listing from line `i` on: what line `i` contributes, then the listing of the
      lines after it. */
  lemma ScanFrom(lines: seq<string>, i: nat, classify: string -> Step)
    requires i < |lines|
    ensures var rest := Scan(Classified(lines[i + 1..], classify));
      Scan(Classified(lines[i..], classify))
        == match classify(lines[i])
           case Skip => rest
           case Stop => Parsed([])
           case Crash(line) => Crashed(line)
           case Emit(r) => Then(Parsed([r]), rest)
  {
    ClassifiedFrom(lines, i, classify);
    ScanCons(classify(lines[i]), Classified(lines[i + 1..], classify));
  }

  /** A line on which the handler crashes: a line that is neither blank nor a "." line,
      with four or more tab-separated fields of which the first, the one the item type is
      read from, is empty. */
  predicate CrashLine(line: string) {
    var trimmed := TrimSpace(line);
    trimmed != "" && trimmed != "." && |Split(line, '\t')| >= 4 && Split(line, '\t')[0] == ""
  }
}
