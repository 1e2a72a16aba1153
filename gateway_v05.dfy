/** The request handling of version 0.5 (gofer-0.5/gofer.go): resolving what "/" is
    asked for, fetching it, and showing it by its type; the synthetic listing shown when
    the fetch fails; where the links of a listing lead; and how a second instance hands
    its URI to the first. */
module GatewayV05 {
  import opened GoStrings
  import opened Wrappers
  import opened Http
  import opened Transport
  import opened Gateway
  import Menu
  import MenuV05
  import PhClient
  import Search

  /** `isTransparentType` (gofer-0.5/gofer.go:128-135): types fetched as text. */
  predicate IsTransparentType(t: char) {
    t == '0' || t == '1'
  }

  /** The item type a request asks for: the first character of its "type" parameter, or
      a menu when there is none (gofer-0.5/gofer.go:484-490). */
  function RequestedType(query: Values): (t: char)
    ensures Lookup(query, "type") == "" ==> t == '1'
    ensures Lookup(query, "type") != "" ==> t == Lookup(query, "type")[0]
  {
    var typeParam := Lookup(query, "type");
    if |typeParam| > 0 then typeParam[0] else '1'
  }

  /** The address "/" is asked for (gofer-0.5/gofer.go:425-468). A "uri" parameter wins,
      with "gopher://" put in front when it has no scheme separator; when that does not
      parse to a gopher URL the other parameters are used as they are, without the
      defaults that apply when there is no "uri" at all. */
  function Resolve(query: Values, parse: string -> Option<Url>): Address {
    var uri := Lookup(query, "uri");
    var given := Address(Lookup(query, "host"), Lookup(query, "port"), Lookup(query, "selector"));
    if uri != "" then
      var raw := if Contains(uri, "://") then uri else "gopher://" + uri;
      match parse(raw)
      case Some(u) =>
        if u.scheme == "gopher" || u.scheme == "" then FromUrl(u) else given
      case None => given
    else
      Address(if given.host == "" then DefaultHost else given.host,
              if given.port == "" then DefaultPort else given.port,
              if given.selector == "" then "/" else given.selector)
  }

  /** Without a "uri" parameter every part of the address is filled in: given values are
      kept and missing ones take the defaults. */
  lemma ResolveDefaults(query: Values, parse: string -> Option<Url>)
    requires Lookup(query, "uri") == ""
    ensures var a := Resolve(query, parse);
      a.host != "" && a.port != "" && a.selector != "" &&
      (Lookup(query, "host") != "" ==> a.host == Lookup(query, "host")) &&
      (Lookup(query, "port") != "" ==> a.port == Lookup(query, "port")) &&
      (Lookup(query, "selector") != "" ==> a.selector == Lookup(query, "selector")) &&
      (Lookup(query, "host") == "" ==> a.host == DefaultHost) &&
      (Lookup(query, "port") == "" ==> a.port == DefaultPort) &&
      (Lookup(query, "selector") == "" ==> a.selector == "/")
  {
  }

  /** A "uri" that does not parse to a gopher URL leaves the other parameters as they
      are, empty ones included. */
  lemma BadUriKeepsParameters(query: Values, parse: string -> Option<Url>)
    requires Lookup(query, "uri") != ""
    requires var uri := Lookup(query, "uri");
      var raw := if Contains(uri, "://") then uri else "gopher://" + uri;
      parse(raw).None? || (parse(raw).value.scheme != "gopher" && parse(raw).value.scheme != "")
    ensures Resolve(query, parse) == Address(Lookup(query, "host"), Lookup(query, "port"), Lookup(query, "selector"))
  {
  }

  /** What "/" answers with: a listing, plain text, or the bytes themselves. */
  datatype Response = MenuPage(page: MenuV05.Page) | PlainText(text: string) | Opaque(data: string)

  /** The one-line listing shown when a fetch fails: an error entry naming the error,
      then the end of the listing (gofer-0.5/gofer.go:474, 502). */
  function FailureListing(message: string, host: string, port: string): string {
    ErrorListing(FailureText + message, host, port)
  }

  const FailureText := "Connection failed: "

  /** A listing of one error entry with the given text, selector "/" and the given host
      and port. */
  function ErrorListing(text: string, host: string, port: string): string {
    ErrorEntry(text, host, port) + "\n.\n"
  }

  function ErrorEntry(text: string, host: string, port: string): string {
    Join(["3" + text, "/", host, port], '\t')
  }

  /** `serveGopher` (gofer-0.5/gofer.go:415-531): resolve the address, fetch it, and show
      the text by the requested type. `peer` is the server at that address and `describe`
      gives an error's text. */
  function ServeGopher(query: Values, peer: Peer, parse: string -> Option<Url>,
                       describe: FetchError -> string): Response {
    var a := Resolve(query, parse);
    var ctx := Menu.Context(a.host, a.port, a.selector);
    match FetchAll(peer)
    case Failure(e) =>
      var listing := FailureListing(describe(e), a.host, a.port);
      MenuPage(MenuV05.Present(MenuV05.Parse(listing, ctx), ctx))
    case Fetched(raw) =>
      var t := RequestedType(query);
      if t == '0' || t == 'i' then PlainText(raw)
      else if t == '1' then MenuPage(MenuV05.Present(MenuV05.Parse(raw, ctx), ctx))
      else Opaque(raw)
  }

  /** A text file ('0') and an information line ('i') are shown as the text received, a
      menu ('1') as the listing of that text for the resolved address, and every other
      type, none of them transparent, as the bytes received. */
  lemma ShownByType(query: Values, peer: Peer, parse: string -> Option<Url>, describe: FetchError -> string)
    requires FetchAll(peer).Fetched?
    ensures var r := ServeGopher(query, peer, parse, describe);
      var t := RequestedType(query);
      var raw := FetchAll(peer).text;
      var a := Resolve(query, parse);
      var ctx := Menu.Context(a.host, a.port, a.selector);
      (t == '0' || t == 'i' ==> r == PlainText(raw)) &&
      (t == '1' ==> r == MenuPage(MenuV05.Present(MenuV05.Parse(raw, ctx), ctx))) &&
      (t != '0' && t != '1' && t != 'i' ==> !IsTransparentType(t) && r == Opaque(raw))
  {
  }

  /** A request without a type is shown as a listing. */
  lemma UntypedIsListing(query: Values, peer: Peer, parse: string -> Option<Url>, describe: FetchError -> string)
    requires Lookup(query, "type") == "" && FetchAll(peer).Fetched?
    ensures ServeGopher(query, peer, parse, describe).MenuPage?
  {
  }

  /** When the fetch fails, "/" shows a listing of one error entry whose display is the
      failure text and the error's description, provided neither the description nor the
      address holds a tab or a newline. */
  lemma FailureShown(query: Values, peer: Peer, parse: string -> Option<Url>, describe: FetchError -> string)
    requires FetchAll(peer).Failure?
    requires var m := describe(FetchAll(peer).error); '\t' !in m && '\n' !in m
    requires var a := Resolve(query, parse);
      '\t' !in a.host && '\n' !in a.host && '\t' !in a.port && '\n' !in a.port
    ensures var display := TrimRight(FailureText + describe(FetchAll(peer).error), MenuV05.DisplayCutset);
      display != [] &&
      ServeGopher(query, peer, parse, describe) == MenuPage(MenuV05.Rendered([MenuV05.Note(MenuV05.ErrorNote, display)]))
  {
    var a := Resolve(query, parse);
    FailurePage(describe(FetchAll(peer).error), a.host, a.port, Menu.Context(a.host, a.port, a.selector));
  }

  /** The failure listing shows one error note: the failure text and the message. */
  lemma FailurePage(message: string, host: string, port: string, ctx: Menu.Context)
    requires '\t' !in message && '\n' !in message
    requires '\t' !in host && '\n' !in host && '\t' !in port && '\n' !in port
    ensures var display := TrimRight(FailureText + message, MenuV05.DisplayCutset);
      display != [] &&
      MenuV05.Present(MenuV05.Parse(FailureListing(message, host, port), ctx), ctx)
        == MenuV05.Rendered([MenuV05.Note(MenuV05.ErrorNote, display)])
  {
    FailureTextFree(message);
    ErrorListingParses(FailureText + message, host, port, ctx);
    MenuV05.PresentOne(Menu.Record('3', TrimRight(FailureText + message, MenuV05.DisplayCutset), "/", host, port), ctx);
  }

  /** The failure text is fit for an error entry whenever the message is. */
  lemma FailureTextFree(message: string)
    requires '\t' !in message && '\n' !in message
    ensures EntryText(FailureText + message)
  {
    var text := FailureText + message;
    assert '\t' !in FailureText && '\n' !in FailureText;
    assert text[0] == 'C';
  }

  /** A text that an error entry can carry: it starts with a character the display keeps
      and holds no tab or newline. */
  predicate EntryText(text: string) {
    text != [] && text[0] !in MenuV05.DisplayCutset && !IsSpace(text[0]) && '\t' !in text && '\n' !in text
  }

  /** An error listing is the one error entry of its text, when that text starts with a
      character the display keeps and nothing in the entry holds a tab or a newline. */
  lemma ErrorListingParses(text: string, host: string, port: string, ctx: Menu.Context)
    requires EntryText(text)
    requires '\t' !in host && '\n' !in host && '\t' !in port && '\n' !in port
    ensures var display := TrimRight(text, MenuV05.DisplayCutset);
      display != [] &&
      MenuV05.Parse(ErrorListing(text, host, port), ctx)
        == Menu.Parsed([Menu.Record('3', display, "/", host, port)])
  {
    var line := ErrorEntry(text, host, port);
    var r := Menu.Record('3', TrimRight(text, MenuV05.DisplayCutset), "/", host, port);
    EntryHasNoNewline(text, host, port);
    ErrorEntryRecord(text, host, port, ctx);
    OneLineListing(line, r, ctx);
  }

  lemma EntryHasNoNewline(text: string, host: string, port: string)
    requires '\n' !in text && '\n' !in host && '\n' !in port
    ensures '\n' !in ErrorEntry(text, host, port)
  {
    var fields := ["3" + text, "/", host, port];
    assert '\n' !in fields[0] && '\n' !in fields[1];
    JoinAvoids(fields, '\t', '\n');
  }

  /** A line followed by a "." line lists that line's record alone. */
  lemma OneLineListing(line: string, r: Menu.Record, ctx: Menu.Context)
    requires '\n' !in line && MenuV05.Classify(line, ctx) == Menu.Emit(r)
    ensures MenuV05.Parse(line + "\n.\n", ctx) == Menu.Parsed([r])
  {
    DotTail(line);
    MenuV05.DotLineEndsListing(line, ".", "", ctx);
    MenuV05.SingleLine(line, ctx);
    Menu.ScanSingle(Menu.Emit(r));
  }

  /** The tail of the listing is a "." line and an empty remainder. */
  lemma DotTail(line: string)
    ensures line + "\n.\n" == line + "\n" + "." + "\n" + ""
    ensures '\n' !in "." && TrimSpace(".") == "."
  {
    var tail: string := "\n" + "." + "\n" + "";
    assert |tail| == 3 && tail[0] == '\n' && tail[1] == '.' && tail[2] == '\n';
    assert tail == "\n.\n";
    assert line + "\n" + "." + "\n" + "" == line + tail;
    var dot := ".";
    assert |dot| == 1 && dot[0] == '.';
    assert forall i | 0 <= i < |dot| :: dot[i] != '\n';
    TrimSpaceKeeps(dot);
  }

  /** The error entry yields the error record of its text, when the text starts with a
      character the display keeps. */
  lemma ErrorEntryRecord(text: string, host: string, port: string, ctx: Menu.Context)
    requires text != [] && text[0] !in MenuV05.DisplayCutset && !IsSpace(text[0])
    requires '\t' !in text && '\t' !in host && '\t' !in port
    ensures var display := TrimRight(text, MenuV05.DisplayCutset);
      display != [] &&
      MenuV05.Classify(ErrorEntry(text, host, port), ctx)
        == Menu.Emit(Menu.Record('3', display, "/", host, port))
  {
    var head := "3" + text;
    assert head[0] == '3' && head[1..] == text;
    assert '\t' !in head && '\t' !in "/";
    MenuV05.WellFormedFields(head, "/", host, port, ctx);
  }

  /** The query of the local page a link leads to, once its parameters are decoded:
      a fetch link carries the item type, host, port and selector; a search link host,
      port and selector; a PH link only "return", into which its selector falls because
      it is appended after a second '?' (gofer-0.5/gofer.go:321-333). */
  function LinkQuery(target: MenuV05.Target, escape: string -> string): Values
    requires LinkDecodes(target)
  {
    match target
    case Fetch(t, host, port, selector) =>
      map["type" := [t], "host" := host, "port" := port, "selector" := selector]
    case SearchForm(host, port, selector) =>
      map["host" := host, "port" := port, "selector" := selector]
    case PhForm(_, _, back, selector) =>
      map["return" := ReturnLink(back, escape) + (if selector != "" then "?selector=" + selector else "")]
  }

  /** The parts of a link written into its query unescaped are carried unchanged: the
      item type, host and port of a fetch link (gofer-0.5/gofer.go:293, 300, 382) and the
      host and port of a search link (gofer-0.5/gofer.go:355-358). Selectors and the
      return link are escaped and need nothing. The host and port of a PH link are written
      unescaped into its path (gofer-0.5/gofer.go:321-325), ahead of its query, so a '?',
      '#' or '%' in them would move the query or cut the link. */
  predicate LinkDecodes(target: MenuV05.Target) {
    match target
    case Fetch(t, host, port, _) => LiteralInQuery(t) && LiteralInQueryText(host) && LiteralInQueryText(port)
    case SearchForm(host, port, _) => LiteralInQueryText(host) && LiteralInQueryText(port)
    case PhForm(host, port, _, _) => LiteralInPathText(host) && LiteralInPathText(port)
  }

  /** The local page of the listing a PH page returns to (gofer-0.5/gofer.go:315-319). */
  function ReturnLink(back: Menu.Context, escape: string -> string): string {
    "/?host=" + back.host + "&port=" + back.port + "&selector=" + escape(back.selector)
  }

  /** The path of a PH link, "/ph/host:port". */
  function PhPath(target: MenuV05.Target): string
    requires target.PhForm?
  {
    PhClient.PrefixV05 + target.host + ":" + target.port
  }

  /** Following a fetch link asks "/" for exactly the record's type and address, with the
      defaults filling in an empty host, port or selector. */
  lemma FetchLinkRoundTrip(r: Menu.Record, ctx: Menu.Context, parse: string -> Option<Url>, escape: string -> string)
    requires MenuV05.Dispatch(r, ctx).Link? && MenuV05.Dispatch(r, ctx).target.Fetch?
    requires LiteralInQuery(r.itemType) && LiteralInQueryText(r.host) && LiteralInQueryText(r.port)
    ensures var q := LinkQuery(MenuV05.Dispatch(r, ctx).target, escape);
      RequestedType(q) == r.itemType &&
      Resolve(q, parse) == Address(if r.host == "" then DefaultHost else r.host,
                                   if r.port == "" then DefaultPort else r.port,
                                   if r.selector == "" then "/" else r.selector)
  {
  }

  /** Following a PH link reaches the PH handler for the record's host and its port, 105
      when the record has none, provided neither holds a ':' nor a character the path
      does not carry unchanged. */
  lemma PhLinkRoundTrip(r: Menu.Record, ctx: Menu.Context)
    requires r.itemType == '2' && ':' !in r.host && ':' !in r.port
    requires LiteralInPathText(r.host) && LiteralInPathText(r.port)
    ensures MenuV05.Dispatch(r, ctx).target.PhForm?
    ensures PhClient.ParseRoute(PhClient.PrefixV05, PhPath(MenuV05.Dispatch(r, ctx).target))
         == PhClient.Route(r.host, if r.port == "" then PhClient.PhDefaultPort else r.port)
  {
    var port := if r.port == "" then PhClient.PhDefaultPort else r.port;
    var parts := [r.host, port];
    assert Join(parts, ':') == r.host + ":" + port by {
      assert Join(parts[1..], ':') == port;
    }
    assert PhPath(MenuV05.Dispatch(r, ctx).target) == PhClient.PrefixV05 + Join(parts, ':');
    PhClient.RouteRoundTrip(PhClient.PrefixV05, parts);
  }

  /** A PH link has no "selector" parameter: the PH page's return link carries the
      record's selector after a '?'. */
  lemma PhLinkSelectorInReturn(r: Menu.Record, ctx: Menu.Context, escape: string -> string,
                               req: Request, peer: Peer)
    requires r.itemType == '2' && r.selector != ""
    requires LiteralInPathText(r.host) && LiteralInPathText(r.port)
    requires req.query == LinkQuery(MenuV05.Dispatch(r, ctx).target, escape)
    requires PhClient.HandlePH(req, peer).Show?
    ensures "selector" !in req.query
    ensures PhClient.HandlePH(req, peer).page.returnTo
         == ReturnLink(ctx, escape) + "?selector=" + r.selector
  {
    var port := if r.port == "" then MenuV05.PhFallbackPort else r.port;
    assert MenuV05.Dispatch(r, ctx).target == MenuV05.PhForm(r.host, port, ctx, r.selector);
    PhFormQuery(MenuV05.PhForm(r.host, port, ctx, r.selector), escape);
  }

  /** The query of a PH link with a selector: only the return link, which ends with it. */
  lemma PhFormQuery(target: MenuV05.Target, escape: string -> string)
    requires target.PhForm? && target.selector != "" && LinkDecodes(target)
    ensures var q := LinkQuery(target, escape);
      "selector" !in q && Lookup(q, "return") == ReturnLink(target.back, escape) + "?selector=" + target.selector
  {
    var link, tail := ReturnLink(target.back, escape), "?selector=" + target.selector;
    assert LinkQuery(target, escape) == map["return" := link + tail];
    assert link + tail == link + "?selector=" + target.selector;
    var key, other := "selector", "return";
    assert |key| != |other|;
  }

  /** Following a search link reaches the search handler with the record's host, port and
      selector (gofer-0.5/gofer.go:352-366): a GET shows the empty search form for that
      address, returning to "/", and an entry with an empty host, port or selector is
      refused. */
  lemma SearchLinkRoundTrip(r: Menu.Record, ctx: Menu.Context, escape: string -> string,
                            req: Request, peer: Peer)
    requires r.itemType == '7' && LiteralInQueryText(r.host) && LiteralInQueryText(r.port)
    requires req.query == LinkQuery(MenuV05.Dispatch(r, ctx).target, escape)
    ensures MenuV05.Dispatch(r, ctx).target == MenuV05.SearchForm(r.host, r.port, r.selector)
    ensures (r.host == "" || r.port == "" || r.selector == "")
        ==> Search.HandleSearch(req, peer) == Search.Refuse(StatusBadRequest)
    ensures r.host != "" && r.port != "" && r.selector != "" && req.verb == Get
        ==> Search.HandleSearch(req, peer) == Search.Show(Search.Frame(Search.NoResults, r.host, r.port, r.selector, "/"))
  {
    SearchFormQuery(MenuV05.SearchForm(r.host, r.port, r.selector), escape);
  }

  /** The query of a search link: its host, port and selector, and no return link. */
  lemma SearchFormQuery(target: MenuV05.Target, escape: string -> string)
    requires target.SearchForm? && LinkDecodes(target)
    ensures var q := LinkQuery(target, escape);
      Lookup(q, "host") == target.host && Lookup(q, "port") == target.port &&
      Lookup(q, "selector") == target.selector && Lookup(q, "return") == ""
  {
    var host, port, selector, back := "host", "port", "selector", "return";
    assert host[0] != port[0] && |host| != |selector| && |port| != |selector|;
    assert |back| != |host| && |back| != |port| && |back| != |selector|;
  }

  /** How version 0.5 starts: as the primary instance, opening its first page, or, when
      another instance holds the port, as a second instance that asks the first to show
      its URI, or just to come forward when it has none (gofer-0.5/gofer.go:601-658). */
  datatype Launch = Primary(initial: Address) | Secondary(focus: FocusRequest)

  function Start(args: seq<string>, listenerAcquired: bool, parse: string -> Option<Url>): Launch {
    if listenerAcquired then Primary(InitialAddress(args, parse))
    else if |args| > 1 then Secondary(FocusWithUri(args[1]))
    else Secondary(BareFocus)
  }

  /** A second instance started without a URI asks for a bare "/focus", which the first
      instance answers with a bad request. */
  lemma BareFocusRefused(args: seq<string>, parse: string -> Option<Url>)
    requires |args| <= 1
    ensures Start(args, false, parse) == Secondary(BareFocus)
    ensures HandleFocus(FocusQuery(BareFocus), parse) == Refuse(StatusBadRequest)
  {
  }

  /** A URI handed over by a second instance shows the page the first instance would have
      opened had it been started with that URI; a URI it would have ignored is refused. */
  lemma ForwardedUriMatchesPrimary(args: seq<string>, parse: string -> Option<Url>)
    requires |args| > 1
    ensures var reply := HandleFocus(FocusQuery(Start(args, false, parse).focus), parse);
      (reply.Redirect? <==> args[1] != "" && FromArgument(args, parse)) &&
      (reply.Redirect? ==> reply.target == Start(args, true, parse).initial)
  {
    assert Lookup(FocusQuery(FocusWithUri(args[1])), "uri") == args[1];
  }
}
