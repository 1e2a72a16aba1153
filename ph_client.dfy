/** The PH (CSO directory) client: routing a "/ph" request to a server, the greeting a
    server sends, and a query (gofer-0.5/ph_client.go, and the older ph_client.go which
    differs only in the route prefix and has no handler). */
module PhClient {
  import opened GoStrings
  import opened Wrappers
  import opened Http
  import opened Transport

  /** Port used when a route names none. */
  const PhDefaultPort := "105"

  /** Route prefix of version 0.5, "/ph/host:port" (gofer-0.5/ph_client.go:25). */
  const PrefixV05 := "/ph/"

  /** Route prefix of the older client, "/ph:host:port" (ph_client.go:19). */
  const PrefixOld := "/ph:"

  datatype Route = Route(host: string, port: string) | InvalidRoute

  /** `ParsePHRoute`: drop the prefix once if present, then the host is the text up to the
      first ':' and the port the text after it up to the next ':', or 105 when that is
      missing or empty. The error of the source is unreachable: splitting always yields at
      least one piece. */
  function ParseRoute(prefix: string, path: string): (r: Route)
    ensures r.Route?
    ensures r.host <= TrimPrefix(path, prefix) && ':' !in r.host
    ensures r.port != "" && ':' !in r.port
  {
    var parts := Split(TrimPrefix(path, prefix), ':');
    if |parts| < 1 then InvalidRoute
    else
      assert Join(parts, ':') == TrimPrefix(path, prefix) by {
        JoinSplit(TrimPrefix(path, prefix), ':');
      }
      JoinStartsWithFirst(parts, ':');
      var port := if |parts| > 1 && parts[1] != "" then parts[1] else PhDefaultPort;
      Route(parts[0], port)
  }

  /** A route built from colon-free pieces joined by ':' parses back to its first two
      pieces as host and port (105 for an empty port); further pieces are ignored. */
  lemma RouteRoundTrip(prefix: string, parts: seq<string>)
    requires |parts| >= 2
    requires forall k | 0 <= k < |parts| :: ':' !in parts[k]
    ensures ParseRoute(prefix, prefix + Join(parts, ':'))
         == Route(parts[0], if parts[1] == "" then PhDefaultPort else parts[1])
  {
    var tail := Join(parts, ':');
    assert (prefix + tail)[|prefix|..] == tail;
    SplitJoin(parts, ':');
  }

  /** A route naming only a host gets the default port. */
  lemma RouteWithoutPort(prefix: string, host: string)
    requires ':' !in host
    ensures ParseRoute(prefix, prefix + host) == Route(host, PhDefaultPort)
  {
    assert (prefix + host)[|prefix|..] == host;
    SplitNone(host, ':');
  }

  /** The older client given a route in the 0.5 form does not strip its prefix: the host
      it finds starts with "/ph/". */
  lemma OldClientKeepsNewPrefix(host: string, port: string)
    requires ':' !in host && ':' !in port && port != ""
    ensures ParseRoute(PrefixOld, PrefixV05 + host + ":" + port) == Route(PrefixV05 + host, port)
  {
    var path := PrefixV05 + host + ":" + port;
    assert !(PrefixOld <= path) by {
      assert path[3] == '/' && PrefixOld[3] == ':';
    }
    assert ':' !in PrefixV05 + host;
    assert path == (PrefixV05 + host) + [':'] + port;
    SplitCons(PrefixV05 + host, ':', port);
    SplitNone(port, ':');
  }

  /** `PHInitialGreeting` (gofer-0.5/ph_client.go:47-67, ph_client.go:41-61): the first
      line the server sends, trimmed of white space; a read that fails before the end of
      that line is a failure. */
  function Greeting(peer: Peer): Outcome {
    match peer
    case Unreachable(reason) => Failure(DialFailed(reason))
    case Connected(_, reply) =>
      if |reply.chunks| > 0 then Fetched(TrimSpace(reply.chunks[0]))
      else Failure(ReadFailed(reply.end))
  }

  /** The greeting fails exactly when the server cannot be reached or the stream fails
      before its first line, with the reason; otherwise it is that first line trimmed of
      white space, whatever follows it. */
  lemma GreetingOutcome(peer: Peer)
    ensures Greeting(peer).Failure? <==> peer.Unreachable? || |peer.reply.chunks| == 0
    ensures peer.Unreachable? ==> Greeting(peer) == Failure(DialFailed(peer.reason))
    ensures peer.Connected? && |peer.reply.chunks| == 0 ==> Greeting(peer) == Failure(ReadFailed(peer.reply.end))
    ensures peer.Connected? && |peer.reply.chunks| > 0 ==> Greeting(peer) == Fetched(TrimSpace(peer.reply.chunks[0]))
  {
  }

  /** A greeting line is shown without its line ending. */
  lemma GreetingDropsLineEnd(writeOk: bool, text: string, rest: seq<string>, last: string, end: ReadError)
    requires text != [] && !IsSpace(text[0]) && !IsSpace(text[|text| - 1])
    ensures Greeting(Connected(writeOk, Stream([text + "\r\n"] + rest, last, end))) == Fetched(text)
  {
    var line := text + "\r\n";
    assert TrimLeftSpace(line) == line;
    assert TrimRightSpace(line) == TrimRightSpace(text) by {
      assert line[..|line| - 1] == text + "\r";
      assert (text + "\r")[..|text|] == text;
    }
    TrimSpaceKeeps(text);
  }

  /** The line that sends a query. */
  function QueryLine(query: string): (line: string)
    ensures |line| == |query| + 8
    ensures line[..6] == "query " && line[6..|line| - 2] == query && line[|line| - 2..] == "\r\n"
  {
    "query " + query + "\r\n"
  }

  /** What `PHQuery` yields (gofer-0.5/ph_client.go:118-152): the greeting line is read and
      thrown away, and everything after it, up to the first failing read whatever its
      error, is the answer, trimmed of white space. */
  function QueryReply(peer: Peer): Outcome {
    match peer
    case Unreachable(reason) => Failure(DialFailed(reason))
    case Connected(_, reply) =>
      if |reply.chunks| > 0 then Fetched(TrimSpace(ReceivedFrom(reply, 1)))
      else Failure(ReadFailed(reply.end))
  }

  /** `PHQuery`: read the greeting, send the query line (whether the write succeeds is not
      looked at), then read until a read fails. */
  method Query(peer: Peer, query: string) returns (sent: string, outcome: Outcome)
    ensures sent == (if peer.Connected? && |peer.reply.chunks| > 0 then QueryLine(query) else "")
    ensures outcome == QueryReply(peer)
  {
    if peer.Unreachable? {
      return "", Failure(DialFailed(peer.reason));
    }
    var greeting := ReadAt(peer.reply, 0);
    if greeting.failed {
      return "", Failure(ReadFailed(greeting.error));
    }
    sent := QueryLine(query);
    var text, _ := ReadUntilError(peer.reply, 1);
    outcome := Fetched(TrimSpace(text));
  }

  /** A query fails exactly when the greeting would: only the first line can fail it. */
  lemma QueryFailsWithGreeting(peer: Peer)
    ensures QueryReply(peer).Failure? <==> Greeting(peer).Failure?
    ensures QueryReply(peer).Failure? ==> QueryReply(peer) == Greeting(peer)
  {
  }

  /** The answer to a query depends neither on the greeting's text nor on how the last
      read failed. */
  lemma QueryIgnoresGreetingAndEnd(w1: bool, w2: bool, g1: string, g2: string, rest: seq<string>,
                                   last: string, e1: ReadError, e2: ReadError)
    ensures QueryReply(Connected(w1, Stream([g1] + rest, last, e1)))
         == QueryReply(Connected(w2, Stream([g2] + rest, last, e2)))
    ensures QueryReply(Connected(w1, Stream([g1] + rest, last, e1))) == Fetched(TrimSpace(Concat(rest) + last))
  {
    assert ([g1] + rest)[1..] == rest;
    assert ([g2] + rest)[1..] == rest;
  }

  /** A page showing a server's greeting or the answer to a query. */
  datatype PhPage = PhPage(host: string, port: string, content: string, returnTo: string)

  datatype Response = Show(page: PhPage) | Refuse(status: int)

  /** `HandlePH` (gofer-0.5/ph_client.go:69-116): a POST runs the query of its form, any
      other method shows the greeting; `peer` is the server at the route's address. */
  function HandlePH(req: Request, peer: Peer): Response {
    var route := ParseRoute(PrefixV05, req.path);
    if route.InvalidRoute? then Refuse(StatusBadRequest)
    else
      var returnTo := if Lookup(req.query, "return") == "" then "/" else Lookup(req.query, "return");
      if req.verb == Post then
        if req.form.None? then Refuse(StatusBadRequest)
        else
          var query := TrimSpace(Lookup(req.form.value, "query"));
          if query == "" then Refuse(StatusBadRequest)
          else
            match QueryReply(peer)
            case Failure(_) => Refuse(StatusBadGateway)
            case Fetched(text) => Show(PhPage(route.host, route.port, text, returnTo))
      else
        match Greeting(peer)
        case Failure(_) => Refuse(StatusBadGateway)
        case Fetched(text) => Show(PhPage(route.host, route.port, text, returnTo))
  }

  /** The request is refused as bad exactly when it is a POST whose form cannot be parsed
      or whose query is blank, and then whatever the server would do: no query is made. */
  lemma BadQueryRefused(req: Request, peer: Peer, other: Peer)
    ensures HandlePH(req, peer) == Refuse(StatusBadRequest)
        <==> req.verb == Post && (req.form.None? || TrimSpace(Lookup(req.form.value, "query")) == "")
    ensures HandlePH(req, peer) == Refuse(StatusBadRequest) ==> HandlePH(req, other) == HandlePH(req, peer)
  {
  }

  /** The query goes out as exactly one line, ended by CR LF, when the query holds no
      newline: the server reads "query " and the query, and nothing after the line. */
  lemma QueryLineIsOneLine(query: string)
    requires '\n' !in query
    ensures Split(QueryLine(query), '\n') == ["query " + query + "\r", ""]
  {
    var head := "query " + query + "\r";
    assert '\n' !in head by {
      assert forall i | 0 <= i < |head| :: head[i] == (if i < 6 then "query "[i] else if i < |head| - 1 then query[i - 6] else '\r');
    }
    assert QueryLine(query) == head + ['\n'] + "";
    SplitCons(head, '\n', "");
    SplitNone("", '\n');
  }

  /** A server failure is a bad gateway: the query's for a POST, the greeting's otherwise. */
  lemma ServerFailureIsBadGateway(req: Request, peer: Peer)
    ensures HandlePH(req, peer) == Refuse(StatusBadGateway)
        <==> if req.verb == Post
             then req.form.Some? && TrimSpace(Lookup(req.form.value, "query")) != "" && QueryReply(peer).Failure?
             else Greeting(peer).Failure?
  {
  }

  /** A shown page is for the route's host and port, returns to the "return" parameter or
      to "/", and holds the query's answer or the greeting. */
  lemma ShownPage(req: Request, peer: Peer)
    requires HandlePH(req, peer).Show?
    ensures var page := HandlePH(req, peer).page;
      Route(page.host, page.port) == ParseRoute(PrefixV05, req.path) &&
      page.returnTo == (if Lookup(req.query, "return") == "" then "/" else Lookup(req.query, "return")) &&
      Fetched(page.content) == (if req.verb == Post then QueryReply(peer) else Greeting(peer))
  {
  }
}
