/** Version 0.5 of the menu formatter (`formatMenuHTML` in gofer-0.5/gofer.go): how each
    line of a reply is classified, how each record is turned into a link or inert text, and
    the line loop itself. The HTML markup around the links is not modelled. */
module MenuV05 {
  import opened GoStrings
  import opened Menu

  /** Characters trimmed off the right end of a display string. */
  const DisplayCutset: set<char> := {' ', '\t', '\r'}

  /** Port used for a CSO/PH entry whose port field is empty. */
  const PhFallbackPort := "105"

  /** Where a rendered link leads, with the parameters it carries. */
  datatype Target =
    | Fetch(itemType: char, host: string, port: string, selector: string)
      // the gateway's own "/" endpoint: type, host, port, escaped selector
    | SearchForm(host: string, port: string, selector: string)
      // the "/search" endpoint for an index-search item
    | PhForm(host: string, port: string, back: Context, selector: string)
      // the "/ph/host:port" endpoint, with a return link to the listing `back`

  datatype NoteKind = ErrorNote | InfoNote

  /** One rendered entry: a link, or inert text. */
  datatype Item = Link(target: Target, display: string) | Note(kind: NoteKind, display: string)

  /** A rendered listing, or the crash of the handler on a line. */
  datatype Page = Rendered(items: seq<Item>) | Panicked(line: string)

  /** What one line of the reply contributes (gofer-0.5/gofer.go:242-283). */
  function Classify(line: string, ctx: Context): Step {
    var trimmed := TrimSpace(line);
    if trimmed == "" then Skip
    else if trimmed == "." then Stop
    else
      var fields := Split(line, '\t');
      if |fields| < 4 then
        Keep(Record('3', TrimRight(MalformedPrefix + trimmed, DisplayCutset), "/", ctx.host, ctx.port))
      else if fields[0] == "" then Crash(line)
      else
        Keep(Record(fields[0][0], TrimRight(fields[0][1..], DisplayCutset), fields[1], fields[2], fields[3]))
  }

  /** The step of each line, in order. */
  function Steps(lines: seq<string>, ctx: Context): seq<Step> {
    Classified(lines, line => Classify(line, ctx))
  }

  /** The listing a reply describes: its lines are the pieces between newlines. */
  function Parse(raw: string, ctx: Context): Listing {
    Scan(Steps(Split(raw, '\n'), ctx))
  }

  /** How a record is shown (gofer-0.5/gofer.go:288-384). */
  function Dispatch(r: Record, ctx: Context): Item {
    match r.itemType
    case '2' =>
      var port := if r.port == "" then PhFallbackPort else r.port;
      Link(PhForm(r.host, port, ctx, r.selector), r.display)
    case '3' => Note(ErrorNote, r.display)
    case '7' => Link(SearchForm(r.host, r.port, r.selector), r.display)
    case 'i' => Note(InfoNote, r.display)
    case _ => Link(Fetch(r.itemType, r.host, r.port, r.selector), r.display)
  }

  /** Each record rendered, in order. */
  function Render(records: seq<Record>, ctx: Context): seq<Item> {
    if records == [] then [] else [Dispatch(records[0], ctx)] + Render(records[1..], ctx)
  }

  lemma {:induction false} RenderSnoc(records: seq<Record>, r: Record, ctx: Context)
    ensures Render(records + [r], ctx) == Render(records, ctx) + [Dispatch(r, ctx)]
  {
    if records != [] {
      assert (records + [r])[1..] == records[1..] + [r];
      RenderSnoc(records[1..], r, ctx);
    }
  }

  function Present(listing: Listing, ctx: Context): Page {
    match listing
    case Parsed(records) => Rendered(Render(records, ctx))
    case Crashed(line) => Panicked(line)
  }

  /** A listing of one record shows that record's item alone. */
  lemma PresentOne(r: Record, ctx: Context)
    ensures Present(Parsed([r]), ctx) == Rendered([Dispatch(r, ctx)])
  {
    assert [r][1..] == [];
    assert Render([r], ctx) == [Dispatch(r, ctx)] + Render([], ctx);
    assert [Dispatch(r, ctx)] + [] == [Dispatch(r, ctx)];
  }

  /** The line loop of `formatMenuHTML`: blank lines are skipped, a "." line ends the loop,
      every other line becomes a record that is rendered unless its display is empty. */
  method FormatMenu(raw: string, ctx: Context) returns (page: Page)
    ensures page == Present(Parse(raw, ctx), ctx)
  {
    var lines := Split(raw, '\n');
    var items: seq<Item> := [];
    ghost var records: seq<Record> := [];
    for i := 0 to |lines|
      invariant Scan(Steps(lines, ctx)) == Then(Parsed(records), Scan(Steps(lines[i..], ctx)))
      invariant items == Render(records, ctx)
    {
      var line := lines[i];
      ghost var rest := Scan(Steps(lines[i + 1..], ctx));
      ScanFrom(lines, i, line => Classify(line, ctx));
      if TrimSpace(line) == "" {
        ClassifyBlank(line, ctx);
        continue;
      }
      if TrimSpace(line) == "." {
        StopIff(line, ctx);
        break;
      }
      var fields := Split(line, '\t');
      var itemType: char;
      var display, selector, host, port: string;
      if |fields| < 4 {
        itemType := '3';
        display := MalformedPrefix + TrimSpace(line);
        selector, host, port := "/", ctx.host, ctx.port;
      } else {
        if fields[0] == "" {
          EmptyTypeFieldCrashes(line, ctx);
          return Panicked(line);
        }
        itemType, display := fields[0][0], fields[0][1..];
        selector, host, port := fields[1], fields[2], fields[3];
      }
      display := TrimRight(display, DisplayCutset);
      var r := Record(itemType, display, selector, host, port);
      assert Classify(line, ctx) == Keep(r) by {
        if |fields| < 4 {
          ClassifyShort(line, ctx);
        } else {
          ClassifyFields(line, ctx);
        }
      }
      if display == "" {
        continue;
      }
      ThenAssoc(Parsed(records), Parsed([r]), rest);
      RenderSnoc(records, r, ctx);
      items := items + [Dispatch(r, ctx)];
      records := records + [r];
    }
    assert Scan(Steps(lines, ctx)) == Parsed(records);
    page := Rendered(items);
  }

  /** Unfolds `Classify` for a blank line. */
  lemma ClassifyBlank(line: string, ctx: Context)
    requires TrimSpace(line) == ""
    ensures Classify(line, ctx) == Skip
  {
  }

  /** Unfolds `Classify` for a line of fewer than four fields. */
  lemma ClassifyShort(line: string, ctx: Context)
    requires TrimSpace(line) != "" && TrimSpace(line) != "."
    requires |Split(line, '\t')| < 4
    ensures Classify(line, ctx)
         == Keep(Record('3', TrimRight(MalformedPrefix + TrimSpace(line), DisplayCutset), "/", ctx.host, ctx.port))
  {
  }

  /** Only a line that trims to "." ends the listing. */
  lemma StopIff(line: string, ctx: Context)
    ensures Classify(line, ctx) == Stop <==> TrimSpace(line) == "."
  {
    var trimmed := TrimSpace(line);
    if trimmed == "" {
      ClassifyBlank(line, ctx);
    } else if trimmed != "." {
      var fields := Split(line, '\t');
      if |fields| < 4 {
        ClassifyShort(line, ctx);
      } else if fields[0] != "" {
        ClassifyFields(line, ctx);
      }
    }
  }

  /** A line of four or more tab-free fields, the first non-empty, that trims neither to
      "" nor to ".", yields the record of the first four fields: the type is the first
      character, whatever it is, and the display the rest of the first field,
      trimmed right only; any further fields are ignored, and the line is dropped when the
      display is empty. */
  lemma WellFormedLine(fields: seq<string>, ctx: Context)
    requires |fields| >= 4 && fields[0] != []
    requires forall k | 0 <= k < |fields| :: '\t' !in fields[k]
    requires TrimSpace(Join(fields, '\t')) != "" && TrimSpace(Join(fields, '\t')) != "."
    ensures Classify(Join(fields, '\t'), ctx)
         == Keep(Record(fields[0][0], TrimRight(fields[0][1..], DisplayCutset), fields[1], fields[2], fields[3]))
  {
    SplitJoin(fields, '\t');
    ClassifyFields(Join(fields, '\t'), ctx);
  }

  /** `WellFormedLine` for a line of exactly four fields. */
  lemma WellFormedFields(f0: string, f1: string, f2: string, f3: string, ctx: Context)
    requires f0 != [] && !IsSpace(f0[0]) && f0[0] != '.'
    requires '\t' !in f0 && '\t' !in f1 && '\t' !in f2 && '\t' !in f3
    ensures Classify(Join([f0, f1, f2, f3], '\t'), ctx)
         == Keep(Record(f0[0], TrimRight(f0[1..], DisplayCutset), f1, f2, f3))
  {
    var fields := [f0, f1, f2, f3];
    JoinStartsWithFirst(fields, '\t');
    ContentLine(Join(fields, '\t'));
    WellFormedLine(fields, ctx);
  }

  /** Lines are cut at '\n' only, so in a reply with CRLF line ends the '\r' stays on the
      last field of a line: the port of its record ends with it. */
  lemma CrlfPortKeepsReturn(f0: string, f1: string, f2: string, port: string, rest: string, ctx: Context)
    requires f0 != [] && !IsSpace(f0[0]) && f0[0] != '.'
    requires '\t' !in f0 && '\t' !in f1 && '\t' !in f2 && '\t' !in port
    requires '\n' !in f0 && '\n' !in f1 && '\n' !in f2 && '\n' !in port
    ensures var line := Join([f0, f1, f2, port + "\r"], '\t');
      Split(Join([f0, f1, f2, port], '\t') + "\r\n" + rest, '\n')[0] == line &&
      Classify(line, ctx) == Keep(Record(f0[0], TrimRight(f0[1..], DisplayCutset), f1, f2, port + "\r"))
  {
    var parts := [f0, f1, f2, port];
    var line := Join([f0, f1, f2, port + "\r"], '\t');
    assert line == Join(parts, '\t') + "\r" by {
      assert parts[..3] + [parts[3] + "\r"] == [f0, f1, f2, port + "\r"];
      JoinExtendLast(parts, '\t', "\r");
    }
    assert Join(parts, '\t') + "\r\n" + rest == line + ['\n'] + rest;
    assert '\n' !in line by {
      JoinAvoids(parts, '\t', '\n');
    }
    SplitCons(line, '\n', rest);
    WellFormedFields(f0, f1, f2, port + "\r", ctx);
  }

  /** A line starting with a non-space character other than '.' is neither blank nor
      the end of the listing. */
  lemma ContentLine(line: string)
    requires |line| > 0 && !IsSpace(line[0]) && line[0] != '.'
    ensures TrimSpace(line) != "" && TrimSpace(line) != "."
  {
    TrimSpaceKeepsFirst(line);
  }

  /** Unfolds `Classify` for a line of four or more fields. */
  lemma ClassifyFields(line: string, ctx: Context)
    requires TrimSpace(line) != "" && TrimSpace(line) != "."
    requires |Split(line, '\t')| >= 4 && Split(line, '\t')[0] != ""
    ensures var f := Split(line, '\t');
      Classify(line, ctx) == Keep(Record(f[0][0], TrimRight(f[0][1..], DisplayCutset), f[1], f[2], f[3]))
  {
  }

  /** A line with fewer than four fields is never dropped: it becomes a type-3 record
      about the line, with selector "/" and the host and port of the listing itself. */
  lemma MalformedLine(line: string, ctx: Context)
    requires TrimSpace(line) != "" && TrimSpace(line) != "."
    requires |Split(line, '\t')| < 4
    ensures Classify(line, ctx) == Emit(Record('3', MalformedPrefix + TrimSpace(line), "/", ctx.host, ctx.port))
  {
    var trimmed := TrimSpace(line);
    assert trimmed != [] && !IsSpace(trimmed[|trimmed| - 1]);
    MalformedRecordKept(trimmed, ctx);
    ClassifyShort(line, ctx);
  }

  /** A trimmed line ends with a character the display keeps, so the malformed-line
      display of it is kept whole, and the record is kept. */
  lemma MalformedRecordKept(trimmed: string, ctx: Context)
    requires trimmed != [] && !IsSpace(trimmed[|trimmed| - 1])
    ensures Keep(Record('3', TrimRight(MalformedPrefix + trimmed, DisplayCutset), "/", ctx.host, ctx.port))
         == Emit(Record('3', MalformedPrefix + trimmed, "/", ctx.host, ctx.port))
  {
    MalformedDisplayEnds(trimmed);
    KeptWhole(MalformedPrefix + trimmed, ctx);
  }

  /** A type-3 display that does not end in a cutset character is kept as it is. */
  lemma KeptWhole(display: string, ctx: Context)
    requires display != [] && !IsSpace(display[|display| - 1])
    ensures Keep(Record('3', TrimRight(display, DisplayCutset), "/", ctx.host, ctx.port))
         == Emit(Record('3', display, "/", ctx.host, ctx.port))
  {
    var last := display[|display| - 1];
    assert last != ' ' && last != '\t' && last != '\r';
    TrimRightKeeps(display, DisplayCutset);
  }

  /** A line whose first field is empty but which has four fields crashes the handler. */
  lemma EmptyTypeFieldCrashes(line: string, ctx: Context)
    requires TrimSpace(line) != "" && TrimSpace(line) != "."
    requires |Split(line, '\t')| >= 4 && Split(line, '\t')[0] == ""
    ensures Classify(line, ctx) == Crash(line)
  {
  }

  /** A blank line contributes nothing wherever it stands. */
  lemma BlankLineIgnored(ra: string, blank: string, rb: string, ctx: Context)
    requires '\n' !in blank && AllSpace(blank)
    ensures Parse(ra + "\n" + blank + "\n" + rb, ctx) == Parse(ra + "\n" + rb, ctx)
  {
    SplitAround(ra, blank, rb, '\n');
    SplitConcat(ra, '\n', rb);
    ClassifiedAppend(Split(ra, '\n') + [blank], Split(rb, '\n'), line => Classify(line, ctx));
    ClassifiedAppend(Split(ra, '\n'), [blank], line => Classify(line, ctx));
    ClassifiedAppend(Split(ra, '\n'), Split(rb, '\n'), line => Classify(line, ctx));
    assert Steps([blank], ctx) == [Skip];
    ScanSkip(Steps(Split(ra, '\n'), ctx), Steps(Split(rb, '\n'), ctx));
  }

  /** The first line that trims to "." ends the listing: nothing after it is looked at. */
  lemma DotLineEndsListing(ra: string, dot: string, rb: string, ctx: Context)
    requires '\n' !in dot && TrimSpace(dot) == "."
    ensures Parse(ra + "\n" + dot + "\n" + rb, ctx) == Parse(ra, ctx)
  {
    SplitAround(ra, dot, rb, '\n');
    ClassifiedAppend(Split(ra, '\n') + [dot], Split(rb, '\n'), line => Classify(line, ctx));
    ClassifiedAppend(Split(ra, '\n'), [dot], line => Classify(line, ctx));
    assert Steps([dot], ctx) == [Stop];
    ScanStop(Steps(Split(ra, '\n'), ctx), Steps(Split(rb, '\n'), ctx));
  }

  /** A reply of one line is that line's step alone. */
  lemma SingleLine(line: string, ctx: Context)
    requires '\n' !in line
    ensures Parse(line, ctx) == Scan([Classify(line, ctx)])
  {
    SplitNone(line, '\n');
    assert [line][1..] == [];
    assert Steps([line], ctx) == [Classify(line, ctx)] + Steps([], ctx);
    assert [Classify(line, ctx)] + [] == [Classify(line, ctx)];
  }

  /** Records appear in the order of their lines: a reply whose first part has no "." line
      lists the first part's records, then the second part's. */
  lemma ListingInLineOrder(ra: string, rb: string, ctx: Context)
    requires forall k | 0 <= k < |Split(ra, '\n')| :: TrimSpace(Split(ra, '\n')[k]) != "."
    ensures Parse(ra + "\n" + rb, ctx) == Then(Parse(ra, ctx), Parse(rb, ctx))
  {
    var a := Split(ra, '\n');
    var steps := Steps(a, ctx);
    assert Stop !in steps by {
      ClassifiedAt(a, 0, line => Classify(line, ctx));
      forall k | 0 <= k < |a| ensures steps[k] != Stop {
        ClassifiedAt(a, k, line => Classify(line, ctx));
        StopIff(a[k], ctx);
      }
    }
    assert Split(ra + "\n" + rb, '\n') == a + Split(rb, '\n') by {
      SplitConcat(ra, '\n', rb);
    }
    ClassifiedAppend(a, Split(rb, '\n'), line => Classify(line, ctx));
    ScanAppend(steps, Steps(Split(rb, '\n'), ctx));
  }

  /** A line never yields a record without a display: one whose right-trimmed display is
      empty is dropped, and a short line's display starts with the malformed-line prefix. */
  lemma EmittedHasDisplay(line: string, ctx: Context)
    ensures Classify(line, ctx).Emit? ==> Classify(line, ctx).record.display != []
  {
  }

  /** The handler crashes on exactly the crash lines, and names the line it crashed on. */
  lemma CrashIff(line: string, ctx: Context)
    ensures Classify(line, ctx).Crash? <==> CrashLine(line)
    ensures Classify(line, ctx).Crash? ==> Classify(line, ctx).line == line
  {
  }

  /** No record of a listing has an empty display. */
  lemma NoEmptyDisplay(raw: string, ctx: Context, k: nat)
    requires Parse(raw, ctx).Parsed? && k < |Parse(raw, ctx).records|
    ensures Parse(raw, ctx).records[k].display != []
  {
    var lines := Split(raw, '\n');
    var steps := Steps(lines, ctx);
    ClassifiedLength(lines, line => Classify(line, ctx));
    forall j | 0 <= j < |steps| ensures steps[j].Emit? ==> steps[j].record.display != [] {
      ClassifiedAt(lines, j, line => Classify(line, ctx));
      EmittedHasDisplay(lines[j], ctx);
    }
    ScanDisplays(steps, k);
  }

  /** The first crash line of a reply crashes the handler, whatever follows it, unless a
      "." line before it has ended the listing: the records of the lines before it are
      not shown. */
  lemma FirstCrashLine(raw: string, i: nat, ctx: Context)
    requires i < |Split(raw, '\n')| && CrashLine(Split(raw, '\n')[i])
    requires forall j | 0 <= j < i :: !CrashLine(Split(raw, '\n')[j]) && TrimSpace(Split(raw, '\n')[j]) != "."
    ensures Parse(raw, ctx) == Crashed(Split(raw, '\n')[i])
  {
    var lines := Split(raw, '\n');
    var steps := Steps(lines, ctx);
    ClassifiedAt(lines, i, line => Classify(line, ctx));
    CrashIff(lines[i], ctx);
    forall j | 0 <= j < i ensures steps[j] != Stop && !steps[j].Crash? {
      ClassifiedAt(lines, j, line => Classify(line, ctx));
      StopIff(lines[j], ctx);
      CrashIff(lines[j], ctx);
    }
    ScanFirstCrash(steps, i);
  }

  /** Errors ('3') and information lines ('i') are inert text showing the display; every
      other type is a link showing it: a PH form for '2', at the record's host and its
      port or 105, returning to the listing; a search form for '7' and a fetch through
      "/" otherwise, both for the record's own type, host, port and selector. */
  lemma DispatchTable(r: Record, ctx: Context)
    ensures Dispatch(r, ctx).Note? <==> r.itemType == '3' || r.itemType == 'i'
    ensures Dispatch(r, ctx).display == r.display
    ensures Dispatch(r, ctx).Note? ==> (Dispatch(r, ctx).kind == ErrorNote <==> r.itemType == '3')
    ensures r.itemType == '2' ==>
      Dispatch(r, ctx).target == PhForm(r.host, if r.port == "" then PhFallbackPort else r.port, ctx, r.selector)
    ensures r.itemType == '7' ==> Dispatch(r, ctx).target == SearchForm(r.host, r.port, r.selector)
    ensures Dispatch(r, ctx).Link? && r.itemType != '2' && r.itemType != '7' ==>
      Dispatch(r, ctx).target == Fetch(r.itemType, r.host, r.port, r.selector)
  {
  }
}
