/** The menu formatter of the current gateway (`parseAndFormat` in gofer.go): how each line
    of a reply is classified, how each record is shown, and the line loop itself. The HTML
    markup around the entries is not modelled. */
module MenuRoot {
  import opened GoStrings
  import opened Menu

  /** How an entry is shown: a link back into the gateway, or inert text of some kind. */
  datatype NoteKind = ErrorNote | InfoNote | UnknownNote

  /** One rendered entry. A link carries the item type only for its icon; the address it
      leads to has host, port and the selector as it stands, with no type. */
  datatype Item =
    | Link(itemType: char, host: string, port: string, selector: string, display: string)
    | Note(kind: NoteKind, display: string)

  /** A rendered listing, or the crash of the handler on a line. */
  datatype Page = Rendered(items: seq<Item>) | Panicked(line: string)

  /** What one line of the reply contributes (gofer.go:193-231). */
  function Classify(line: string, ctx: Context): Step {
    var trimmed := TrimSpace(line);
    if trimmed == "" || trimmed == "." then Skip
    else
      var fields := Split(line, '\t');
      if |fields| < 4 then
        Keep(Record('3', TrimSpace(MalformedPrefix + trimmed), "/", ctx.host, ctx.port))
      else if fields[0] == "" then Crash(line)
      else
        Keep(Record(fields[0][0], TrimSpace(fields[0][1..]), fields[1], fields[2], fields[3]))
  }

  /** The step of each line, in order. */
  function Steps(lines: seq<string>, ctx: Context): seq<Step> {
    Classified(lines, line => Classify(line, ctx))
  }

  /** The listing a reply describes: its lines are the pieces between newlines. */
  function Parse(raw: string, ctx: Context): Listing {
    Scan(Steps(Split(raw, '\n'), ctx))
  }

  /** How a record is shown (gofer.go:236-256). */
  function Dispatch(r: Record): Item {
    match r.itemType
    case '0' => Link('0', r.host, r.port, r.selector, r.display)
    case '1' => Link('1', r.host, r.port, r.selector, r.display)
    case '3' => Note(ErrorNote, r.display)
    case 'i' => Note(InfoNote, r.display)
    case _ => Note(UnknownNote, r.display)
  }

  /** Each record rendered, in order. */
  function Render(records: seq<Record>): seq<Item> {
    if records == [] then [] else [Dispatch(records[0])] + Render(records[1..])
  }

  lemma {:induction false} RenderSnoc(records: seq<Record>, r: Record)
    ensures Render(records + [r]) == Render(records) + [Dispatch(r)]
  {
    if records != [] {
      assert (records + [r])[1..] == records[1..] + [r];
      RenderSnoc(records[1..], r);
    }
  }

  function Present(listing: Listing): Page {
    match listing
    case Parsed(records) => Rendered(Render(records))
    case Crashed(line) => Panicked(line)
  }

  /** The line loop of `parseAndFormat`: blank lines and "." lines are skipped, every other
      line becomes a record that is rendered unless its display is empty. */
  method FormatMenu(raw: string, ctx: Context) returns (page: Page)
    ensures page == Present(Parse(raw, ctx))
  {
    var lines := Split(raw, '\n');
    var items: seq<Item> := [];
    ghost var records: seq<Record> := [];
    for i := 0 to |lines|
      invariant Scan(Steps(lines, ctx)) == Then(Parsed(records), Scan(Steps(lines[i..], ctx)))
      invariant items == Render(records)
    {
      var line := lines[i];
      ghost var rest := Steps(lines[i + 1..], ctx);
      assert Steps(lines[i..], ctx) == [Classify(line, ctx)] + rest by {
        ClassifiedFrom(lines, i, line => Classify(line, ctx));
      }
      var trimmed := TrimSpace(line);
      if trimmed == "" || trimmed == "." {
        assert Scan(Steps(lines[i..], ctx)) == Scan(rest) by {
          ClassifyBlank(line, ctx);
          ScanCons(Skip, rest);
        }
        continue;
      }
      var fields := Split(line, '\t');
      var itemType: char;
      var display, selector, host, port: string;
      if |fields| < 4 {
        itemType := '3';
        display := MalformedPrefix + TrimSpace(line);
        selector, host, port := "/", ctx.host, ctx.port;
      } else {
        if fields[0] == "" {
          assert Scan(Steps(lines[i..], ctx)) == Crashed(line) by {
            EmptyTypeFieldCrashes(line, ctx);
            ScanCons(Crash(line), rest);
          }
          return Panicked(line);
        }
        itemType, display := fields[0][0], fields[0][1..];
        selector, host, port := fields[1], fields[2], fields[3];
      }
      display := TrimSpace(display);
      var r := Record(itemType, display, selector, host, port);
      assert Classify(line, ctx) == Keep(r) by {
        if |fields| < 4 {
          ClassifyShort(line, ctx);
        } else {
          ClassifyFields(line, ctx);
        }
      }
      if display == "" {
        assert Scan(Steps(lines[i..], ctx)) == Scan(rest) by {
          ScanCons(Skip, rest);
        }
        continue;
      }
      assert Scan(Steps(lines[i..], ctx)) == Then(Parsed([r]), Scan(rest)) by {
        ScanCons(Emit(r), rest);
      }
      ThenAssoc(Parsed(records), Parsed([r]), Scan(rest));
      RenderSnoc(records, r);
      items := items + [Dispatch(r)];
      records := records + [r];
    }
    assert Scan(Steps(lines, ctx)) == Parsed(records);
    page := Rendered(items);
  }

  /** Unfolds `Classify` for a blank line or a "." line. */
  lemma ClassifyBlank(line: string, ctx: Context)
    requires TrimSpace(line) == "" || TrimSpace(line) == "."
    ensures Classify(line, ctx) == Skip
  {
  }

  /** Unfolds `Classify` for a line of fewer than four fields. */
  lemma ClassifyShort(line: string, ctx: Context)
    requires TrimSpace(line) != "" && TrimSpace(line) != "."
    requires |Split(line, '\t')| < 4
    ensures Classify(line, ctx)
         == Keep(Record('3', TrimSpace(MalformedPrefix + TrimSpace(line)), "/", ctx.host, ctx.port))
  {
  }

  /** Unfolds `Classify` for a line of four or more fields. */
  lemma ClassifyFields(line: string, ctx: Context)
    requires TrimSpace(line) != "" && TrimSpace(line) != "."
    requires |Split(line, '\t')| >= 4 && Split(line, '\t')[0] != ""
    ensures var f := Split(line, '\t');
      Classify(line, ctx) == Keep(Record(f[0][0], TrimSpace(f[0][1..]), f[1], f[2], f[3]))
  {
  }

  /** No line ends the listing: a "." line is skipped like a blank one. */
  lemma NeverStops(line: string, ctx: Context)
    ensures Classify(line, ctx) != Stop
    ensures TrimSpace(line) == "." ==> Classify(line, ctx) == Skip
  {
  }

  /** A line with fewer than four fields is never dropped: it becomes a type-3 record
      about the line, with selector "/" and the host and port of the listing itself. */
  lemma MalformedLine(line: string, ctx: Context)
    requires TrimSpace(line) != "" && TrimSpace(line) != "."
    requires |Split(line, '\t')| < 4
    ensures Classify(line, ctx) == Emit(Record('3', MalformedPrefix + TrimSpace(line), "/", ctx.host, ctx.port))
  {
    var trimmed := TrimSpace(line);
    assert trimmed != [] && !IsSpace(trimmed[|trimmed| - 1]);
    MalformedRecordKept(trimmed, ctx);
    ClassifyShort(line, ctx);
  }

  /** The prefix of a malformed line's display starts with a letter, so trimming the
      display of a trimmed line changes nothing, and the record is kept. */
  lemma MalformedRecordKept(trimmed: string, ctx: Context)
    requires trimmed != [] && !IsSpace(trimmed[|trimmed| - 1])
    ensures Keep(Record('3', TrimSpace(MalformedPrefix + trimmed), "/", ctx.host, ctx.port))
         == Emit(Record('3', MalformedPrefix + trimmed, "/", ctx.host, ctx.port))
  {
    MalformedDisplayEnds(trimmed);
    KeptWhole(MalformedPrefix + trimmed, ctx);
  }

  /** A type-3 display with no white space at either end is kept as it is. */
  lemma KeptWhole(display: string, ctx: Context)
    requires display != [] && !IsSpace(display[0]) && !IsSpace(display[|display| - 1])
    ensures Keep(Record('3', TrimSpace(display), "/", ctx.host, ctx.port))
         == Emit(Record('3', display, "/", ctx.host, ctx.port))
  {
    TrimSpaceKeeps(display);
  }

  /** A line whose first field is empty but which has four fields crashes the handler. */
  lemma EmptyTypeFieldCrashes(line: string, ctx: Context)
    requires TrimSpace(line) != "" && TrimSpace(line) != "."
    requires |Split(line, '\t')| >= 4 && Split(line, '\t')[0] == ""
    ensures Classify(line, ctx) == Crash(line)
  {
  }

  /** A line of four or more tab-free fields, the first non-empty, that trims neither to
      "" nor to ".", yields the record of the first four fields: the type is the first
      character, whatever it is, and the display the rest of the first field,
      trimmed at both ends; any further fields are ignored, and the line is dropped when the
      display is empty. */
  lemma WellFormedLine(fields: seq<string>, ctx: Context)
    requires |fields| >= 4 && fields[0] != []
    requires forall k | 0 <= k < |fields| :: '\t' !in fields[k]
    requires TrimSpace(Join(fields, '\t')) != "" && TrimSpace(Join(fields, '\t')) != "."
    ensures Classify(Join(fields, '\t'), ctx)
         == Keep(Record(fields[0][0], TrimSpace(fields[0][1..]), fields[1], fields[2], fields[3]))
  {
    SplitJoin(fields, '\t');
    ClassifyFields(Join(fields, '\t'), ctx);
  }

  /** The steps of any lines never end the listing early. */
  lemma StepsNeverStop(lines: seq<string>, ctx: Context)
    ensures Stop !in Steps(lines, ctx)
  {
    var steps := Steps(lines, ctx);
    if lines != [] {
      ClassifiedAt(lines, 0, line => Classify(line, ctx));
      forall k | 0 <= k < |lines| ensures steps[k] != Stop {
        ClassifiedAt(lines, k, line => Classify(line, ctx));
        NeverStops(lines[k], ctx);
      }
    }
  }

  /** Records appear in the order of their lines, whatever the lines are: unlike the
      earlier version, a "." line does not end the listing. */
  lemma ListingInLineOrder(ra: string, rb: string, ctx: Context)
    ensures Parse(ra + "\n" + rb, ctx) == Then(Parse(ra, ctx), Parse(rb, ctx))
  {
    var a := Split(ra, '\n');
    StepsNeverStop(a, ctx);
    assert Split(ra + "\n" + rb, '\n') == a + Split(rb, '\n') by {
      SplitConcat(ra, '\n', rb);
    }
    ClassifiedAppend(a, Split(rb, '\n'), line => Classify(line, ctx));
    ScanAppend(Steps(a, ctx), Steps(Split(rb, '\n'), ctx));
  }

  /** A blank line, or a line that trims to ".", contributes nothing wherever it stands;
      in particular the lines after a "." line are still listed. */
  lemma SkippedLineIgnored(ra: string, line: string, rb: string, ctx: Context)
    requires '\n' !in line && (TrimSpace(line) == "" || TrimSpace(line) == ".")
    ensures Parse(ra + "\n" + line + "\n" + rb, ctx) == Parse(ra + "\n" + rb, ctx)
  {
    var a, b := Split(ra, '\n'), Split(rb, '\n');
    SplitAround(ra, line, rb, '\n');
    SplitConcat(ra, '\n', rb);
    ClassifiedAppend(a + [line], b, line => Classify(line, ctx));
    ClassifiedAppend(a, [line], line => Classify(line, ctx));
    ClassifiedAppend(a, b, line => Classify(line, ctx));
    assert Steps([line], ctx) == [Skip] by {
      ClassifyBlank(line, ctx);
    }
    ScanSkip(Steps(a, ctx), Steps(b, ctx));
  }

  /** A line never yields a record without a display: one whose trimmed display is empty
      is dropped, and a short line's display starts with the malformed-line prefix. */
  lemma EmittedHasDisplay(line: string, ctx: Context)
    ensures Classify(line, ctx).Emit? ==> Classify(line, ctx).record.display != []
  {
  }

  /** The handler crashes on exactly the crash lines, and names the line it crashed on. */
  lemma CrashIff(line: string, ctx: Context)
    ensures Classify(line, ctx).Crash? <==> CrashLine(line)
    ensures Classify(line, ctx).Crash? ==> Classify(line, ctx).line == line
  {
  }

  /** No record of a listing has an empty display. */
  lemma NoEmptyDisplay(raw: string, ctx: Context, k: nat)
    requires Parse(raw, ctx).Parsed? && k < |Parse(raw, ctx).records|
    ensures Parse(raw, ctx).records[k].display != []
  {
    var lines := Split(raw, '\n');
    var steps := Steps(lines, ctx);
    ClassifiedLength(lines, line => Classify(line, ctx));
    forall j | 0 <= j < |steps| ensures steps[j].Emit? ==> steps[j].record.display != [] {
      ClassifiedAt(lines, j, line => Classify(line, ctx));
      EmittedHasDisplay(lines[j], ctx);
    }
    ScanDisplays(steps, k);
  }

  /** The first crash line of a reply crashes the handler, whatever follows it: the
      records of the lines before it are not shown. */
  lemma FirstCrashLine(raw: string, i: nat, ctx: Context)
    requires i < |Split(raw, '\n')| && CrashLine(Split(raw, '\n')[i])
    requires forall j | 0 <= j < i :: !CrashLine(Split(raw, '\n')[j])
    ensures Parse(raw, ctx) == Crashed(Split(raw, '\n')[i])
  {
    var lines := Split(raw, '\n');
    var steps := Steps(lines, ctx);
    ClassifiedAt(lines, i, line => Classify(line, ctx));
    CrashIff(lines[i], ctx);
    forall j | 0 <= j < i ensures steps[j] != Stop && !steps[j].Crash? {
      ClassifiedAt(lines, j, line => Classify(line, ctx));
      NeverStops(lines[j], ctx);
      CrashIff(lines[j], ctx);
    }
    ScanFirstCrash(steps, i);
  }

  /** Only text files ('0') and menus ('1') become links, to the record's own address;
      every other type is inert text showing the display, marked as an error for '3',
      as information for 'i', and as unknown otherwise. */
  lemma DispatchTable(r: Record)
    ensures Dispatch(r).Link? <==> r.itemType == '0' || r.itemType == '1'
    ensures Dispatch(r).Link? ==> Dispatch(r) == Link(r.itemType, r.host, r.port, r.selector, r.display)
    ensures Dispatch(r).Note? ==> Dispatch(r).display == r.display
    ensures Dispatch(r).Note? ==> (Dispatch(r).kind == ErrorNote <==> r.itemType == '3')
    ensures Dispatch(r).Note? ==> (Dispatch(r).kind == InfoNote <==> r.itemType == 'i')
  {
  }
}
