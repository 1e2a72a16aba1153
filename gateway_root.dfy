/** The request handling of the current gateway (gofer.go): "/" fetches the address it is
    given, with defaults, and always shows the reply as a listing; a failed fetch is a
    server error; and how a second instance hands its URI to the first. */
module GatewayRoot {
  import opened Wrappers
  import opened Http
  import opened Transport
  import opened Gateway
  import Menu
  import MenuRoot

  /** The address "/" is asked for (gofer.go:292-306): the "host", "port" and "selector"
      parameters, each replaced by its default when empty. */
  function Requested(query: Values): Address {
    var host := Lookup(query, "host");
    var port := Lookup(query, "port");
    var selector := Lookup(query, "selector");
    Address(if host == "" then DefaultHost else host,
            if port == "" then DefaultPort else port,
            if selector == "" then "/" else selector)
  }

  /** Every part of the requested address is filled in: a given value is kept, a missing
      one takes its default. */
  lemma RequestedDefaults(query: Values)
    ensures var a := Requested(query);
      a.host != "" && a.port != "" && a.selector != "" &&
      (Lookup(query, "host") != "" <==> a.host == Lookup(query, "host")) &&
      (Lookup(query, "port") != "" <==> a.port == Lookup(query, "port")) &&
      (Lookup(query, "selector") != "" <==> a.selector == Lookup(query, "selector")) &&
      (Lookup(query, "host") == "" ==> a.host == DefaultHost) &&
      (Lookup(query, "port") == "" ==> a.port == DefaultPort) &&
      (Lookup(query, "selector") == "" ==> a.selector == "/")
  {
  }

  /** What "/" answers with: a listing, or an internal server error about the address. */
  datatype Response = MenuPage(page: MenuRoot.Page) | ServerError(status: int, address: Address)

  /** `serveGopher` (gofer.go:288-318): fetch the requested address from `peer`, the
      server found there, and show the reply as a listing whatever its type. */
  function ServeGopher(query: Values, peer: Peer): Response {
    var a := Requested(query);
    match Fetch(peer)
    case Failure(_) => ServerError(StatusInternalServerError, a)
    case Fetched(raw) => MenuPage(MenuRoot.Present(MenuRoot.Parse(raw, Menu.Context(a.host, a.port, a.selector))))
  }

  /** A fetch fails exactly when "/" answers with status 500, naming the requested address;
      otherwise the page is the listing of everything the server sent. */
  lemma FailureIsServerError(query: Values, peer: Peer)
    ensures ServeGopher(query, peer).ServerError? <==> Fetch(peer).Failure?
    ensures ServeGopher(query, peer).ServerError? ==>
      ServeGopher(query, peer) == ServerError(StatusInternalServerError, Requested(query))
    ensures Fetch(peer).Fetched? ==>
      ServeGopher(query, peer).page == MenuRoot.Present(MenuRoot.Parse(Fetch(peer).text,
        Menu.Context(Requested(query).host, Requested(query).port, Requested(query).selector)))
  {
  }

  /** The query of the local page a link of a listing leads to, once decoded: host, port
      and selector, and no item type (gofer.go:240-241). All three are written into the
      link unescaped, so they come back as they are only when the query carries each of
      them unchanged. */
  function LinkQuery(item: MenuRoot.Item): Values
    requires item.Link?
    requires LiteralInQueryText(item.host) && LiteralInQueryText(item.port) && LiteralInQueryText(item.selector)
  {
    AddressQuery(Address(item.host, item.port, item.selector))
  }

  /** Following the link of a text file ('0') or a menu ('1') asks "/" for the record's
      address, defaults filling in empty parts, and the reply is shown as a listing in
      both cases: a text file is read as if it were a menu. */
  lemma LinksLeadToListings(r: Menu.Record, peer: Peer)
    requires r.itemType == '0' || r.itemType == '1'
    requires LiteralInQueryText(r.host) && LiteralInQueryText(r.port) && LiteralInQueryText(r.selector)
    ensures MenuRoot.Dispatch(r).Link?
    ensures var q := LinkQuery(MenuRoot.Dispatch(r));
      Requested(q) == Address(if r.host == "" then DefaultHost else r.host,
                              if r.port == "" then DefaultPort else r.port,
                              if r.selector == "" then "/" else r.selector) &&
      (Fetch(peer).Fetched? ==> ServeGopher(q, peer).MenuPage?)
  {
  }

  /** How the current gateway starts (gofer.go:377-424): as the primary instance,
      opening its first page, or, when another instance holds the port, as a second
      instance forwarding its first argument to "/focus". Without an argument the second
      instance still reads it, and crashes. */
  datatype Launch = Primary(initial: Address) | Secondary(focus: FocusRequest) | Panic

  function Start(args: seq<string>, listenerAcquired: bool, parse: string -> Option<Url>): Launch {
    if listenerAcquired then Primary(InitialAddress(args, parse))
    else if |args| > 1 then Secondary(FocusWithUri(args[1]))
    else Panic
  }

  /** Started without a URI, the primary instance opens the default page but a second
      instance crashes instead of handing anything over. */
  lemma SecondWithoutUriPanics(args: seq<string>, parse: string -> Option<Url>)
    requires |args| <= 1
    ensures Start(args, true, parse) == Primary(DefaultAddress)
    ensures Start(args, false, parse) == Panic
  {
  }

  /** A URI handed over by a second instance shows the page the first instance would have
      opened had it been started with that URI; a URI it would have ignored is refused. */
  lemma ForwardedUriMatchesPrimary(args: seq<string>, parse: string -> Option<Url>)
    requires |args| > 1
    ensures Start(args, false, parse).Secondary?
    ensures var reply := HandleFocus(FocusQuery(Start(args, false, parse).focus), parse);
      (reply.Redirect? <==> args[1] != "" && FromArgument(args, parse)) &&
      (reply.Redirect? ==> Start(args, true, parse) == Primary(reply.target))
  {
    assert Lookup(FocusQuery(FocusWithUri(args[1])), "uri") == args[1];
  }
}
