/** Index search (item type 7) of version 0.5 (search.go): the handler's decisions, the
    request line, and the read loop of the query. */
module Search {
  import opened GoStrings
  import opened Wrappers
  import opened Http
  import opened Transport
  import Menu
  import MenuV05

  /** `selector + TAB + query + CR LF`: a search request (RFC 1436, section 3.7). */
  function SearchLine(selector: string, query: string): string {
    selector + "\t" + query + "\r\n"
  }

  /** The request line carries the selector and the query as its two tab-separated
      fields, the query followed by the line ending. */
  lemma SearchLineFields(selector: string, query: string)
    requires '\t' !in selector && '\t' !in query
    ensures Split(SearchLine(selector, query), '\t') == [selector, query + "\r\n"]
  {
    assert SearchLine(selector, query) == selector + ['\t'] + (query + "\r\n");
    SplitCons(selector, '\t', query + "\r\n");
    SplitNone(query + "\r\n", '\t');
  }

  /** What `SearchQuery` yields (search.go:72-100): everything received up to the first
      failing read, whatever its error, trimmed of white space; only a server that cannot
      be reached is a failure. */
  function SearchReply(peer: Peer): Outcome {
    match peer
    case Unreachable(reason) => Failure(DialFailed(reason))
    case Connected(_, reply) => Fetched(TrimSpace(Received(reply)))
  }

  /** `SearchQuery`: send the request line (whether the write succeeds is not looked at),
      then read until a read fails. */
  method SearchQuery(peer: Peer, selector: string, query: string) returns (sent: string, outcome: Outcome)
    ensures sent == (if peer.Connected? then SearchLine(selector, query) else "")
    ensures outcome == SearchReply(peer)
  {
    if peer.Unreachable? {
      return "", Failure(DialFailed(peer.reason));
    }
    sent := SearchLine(selector, query);
    var text, _ := ReadUntilError(peer.reply, 0);
    outcome := Fetched(TrimSpace(text));
  }

  /** A search fails only when the server cannot be reached; a read error of any kind,
      the deadline included, only ends the answer. */
  lemma SearchFailsOnlyOnDial(peer: Peer)
    ensures SearchReply(peer).Failure? <==> peer.Unreachable?
    ensures peer.Connected? ==> SearchReply(peer) == Fetched(TrimSpace(Concat(peer.reply.chunks) + peer.reply.last))
  {
    if peer.Connected? {
      assert peer.reply.chunks[0..] == peer.reply.chunks;
    }
  }

  /** The results shown in the search frame: none yet, or a listing. */
  datatype Results = NoResults | Listing(page: MenuV05.Page)

  /** The search frame: the results, the search's address and the link back. */
  datatype Frame = Frame(results: Results, host: string, port: string, selector: string, returnTo: string)

  datatype Response = Show(frame: Frame) | Refuse(status: int)

  /** `HandleSearch` (search.go:16-70): `peer` is the server at the host and port the
      request names. */
  function HandleSearch(req: Request, peer: Peer): Response {
    var host := Lookup(req.query, "host");
    var port := Lookup(req.query, "port");
    var selector := Lookup(req.query, "selector");
    if host == "" || port == "" || selector == "" then Refuse(StatusBadRequest)
    else
      var returnTo := if Lookup(req.query, "return") == "" then "/" else Lookup(req.query, "return");
      match req.verb
      case Get => Show(Frame(NoResults, host, port, selector, returnTo))
      case Post =>
        if req.form.None? then Refuse(StatusBadRequest)
        else
          var query := TrimSpace(Lookup(req.form.value, "query"));
          if query == "" then Refuse(StatusBadRequest)
          else
            (match SearchReply(peer)
             case Failure(_) => Refuse(StatusBadGateway)
             case Fetched(raw) =>
               var ctx := Menu.Context(host, port, selector);
               Show(Frame(Listing(MenuV05.Present(MenuV05.Parse(raw, ctx), ctx)), host, port, selector, returnTo)))
      case OtherMethod(_) => Refuse(StatusMethodNotAllowed)
  }

  /** A search missing its host, port or selector is refused before its method is looked
      at, and only then. */
  lemma MissingAddressRefused(req: Request, peer: Peer)
    ensures (Lookup(req.query, "host") == "" || Lookup(req.query, "port") == "" || Lookup(req.query, "selector") == "")
        ==> HandleSearch(req, peer) == Refuse(StatusBadRequest)
    ensures HandleSearch(req, peer) == Refuse(StatusBadRequest)
        <==> (Lookup(req.query, "host") == "" || Lookup(req.query, "port") == "" || Lookup(req.query, "selector") == ""
              || (req.verb == Post && (req.form.None? || TrimSpace(Lookup(req.form.value, "query")) == "")))
  {
  }

  /** Only a POST with a query reaches the server: every other answer is the same
      whatever the server would do. */
  lemma OnlyQueriesReachServer(req: Request, peer: Peer, other: Peer)
    requires !(req.verb == Post && req.form.Some? && TrimSpace(Lookup(req.form.value, "query")) != "")
    ensures HandleSearch(req, peer) == HandleSearch(req, other)
  {
  }

  /** A GET shows the empty frame, and methods other than GET and POST are not allowed. */
  lemma MethodDecides(req: Request, peer: Peer)
    requires Lookup(req.query, "host") != "" && Lookup(req.query, "port") != "" && Lookup(req.query, "selector") != ""
    ensures req.verb == Get ==> HandleSearch(req, peer).Show? && HandleSearch(req, peer).frame.results == NoResults
    ensures req.verb.OtherMethod? <==> HandleSearch(req, peer) == Refuse(StatusMethodNotAllowed)
  {
  }

  /** The results of a search are the answer formatted as a listing of the search's own
      host, port and selector; the frame returns to the "return" parameter or to "/". */
  lemma SearchResults(req: Request, peer: Peer)
    requires HandleSearch(req, peer).Show? && req.verb == Post
    ensures var f := HandleSearch(req, peer).frame;
      var ctx := Menu.Context(f.host, f.port, f.selector);
      peer.Connected? &&
      f.results == Listing(MenuV05.Present(MenuV05.Parse(TrimSpace(Received(peer.reply)), ctx), ctx)) &&
      f.host == Lookup(req.query, "host") && f.port == Lookup(req.query, "port") &&
      f.selector == Lookup(req.query, "selector") &&
      f.returnTo == (if Lookup(req.query, "return") == "" then "/" else Lookup(req.query, "return"))
  {
    var host, port, selector := Lookup(req.query, "host"), Lookup(req.query, "port"), Lookup(req.query, "selector");
    var returnTo := if Lookup(req.query, "return") == "" then "/" else Lookup(req.query, "return");
    assert host != "" && port != "" && selector != "" && req.form.Some?;
    assert peer.Connected?;
    var raw := TrimSpace(Received(peer.reply));
    var ctx := Menu.Context(host, port, selector);
    assert HandleSearch(req, peer)
        == Show(Frame(Listing(MenuV05.Present(MenuV05.Parse(raw, ctx), ctx)), host, port, selector, returnTo));
  }
}
