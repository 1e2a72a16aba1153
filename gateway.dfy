/** What both versions of the gateway share: the default server, the address a page is
    fetched from, how a gopher:// URI becomes such an address, the "/focus" handler and the
    page the primary instance opens first. Parsing a URI is `url.Parse`, which is not
    part of this model: it is the parameter `parse`. */
module Gateway {
  import opened GoStrings
  import opened Wrappers
  import opened Http

  const DefaultHost := "freeshell.org"
  const DefaultPort := "70"

  /** The parts of a parsed URL the gateway looks at. */
  datatype Url = Url(scheme: string, hostname: string, port: string, path: string)

  /** Host, port and selector of a Gopher resource. */
  datatype Address = Address(host: string, port: string, selector: string)

  /** The address a gopher:// URL names: port 70 when it gives none, and the selector is
      the path without one leading "/". */
  function FromUrl(u: Url): (a: Address)
    ensures a.host == u.hostname && a.port != ""
    ensures u.port != "" ==> a.port == u.port
    ensures u.port == "" ==> a.port == DefaultPort
    ensures "/" + a.selector == u.path || (a.selector == u.path && !("/" <= u.path))
  {
    Address(u.hostname, if u.port == "" then DefaultPort else u.port, TrimPrefix(u.path, "/"))
  }

  /** The query of the local page for an address, "/?host=...&port=...&selector=...". */
  function AddressQuery(a: Address): Values {
    map["host" := a.host, "port" := a.port, "selector" := a.selector]
  }

  /** The query "/focus" is requested with by a second instance: with the URI it was
      given, or with none. */
  datatype FocusRequest = FocusWithUri(uri: string) | BareFocus

  function FocusQuery(f: FocusRequest): Values {
    match f
    case FocusWithUri(uri) => map["uri" := uri]
    case BareFocus => map[]
  }

  datatype FocusResponse = Redirect(target: Address) | Refuse(status: int)

  /** `handleFocus` (gofer-0.5/gofer.go:535-585; the same in gofer.go:323-373): a missing
      URI, one that does not parse or one whose scheme is not "gopher" is a bad request;
      otherwise the browser is sent to the local page of the URI's address. */
  function HandleFocus(query: Values, parse: string -> Option<Url>): FocusResponse {
    var uri := Lookup(query, "uri");
    if uri == "" then Refuse(StatusBadRequest)
    else
      match parse(uri)
      case None => Refuse(StatusBadRequest)
      case Some(u) =>
        if u.scheme != "gopher" then Refuse(StatusBadRequest)
        else Redirect(FromUrl(u))
  }

  /** The focus handler redirects exactly for a non-empty URI that parses with the
      "gopher" scheme, and then to that URI's address. */
  lemma FocusRedirectsOnlyGopherUris(query: Values, parse: string -> Option<Url>)
    ensures HandleFocus(query, parse).Redirect?
        <==> Lookup(query, "uri") != "" && parse(Lookup(query, "uri")).Some?
             && parse(Lookup(query, "uri")).value.scheme == "gopher"
    ensures HandleFocus(query, parse).Redirect? ==>
      HandleFocus(query, parse).target == FromUrl(parse(Lookup(query, "uri")).value)
    ensures !HandleFocus(query, parse).Redirect? ==> HandleFocus(query, parse) == Refuse(StatusBadRequest)
  {
  }

  /** The default first page: the default server's root menu. */
  const DefaultAddress := Address(DefaultHost, DefaultPort, "/")

  /** Whether the command line names a gopher:// URI the primary instance opens. */
  predicate FromArgument(args: seq<string>, parse: string -> Option<Url>) {
    |args| > 1 && parse(args[1]).Some? && parse(args[1]).value.scheme == "gopher"
  }

  /** The page the primary instance opens first (gofer-0.5/gofer.go:601-621, and the same
      in gofer.go:383-403): the first argument's address when it is a gopher:// URI, the
      default page otherwise. */
  function InitialAddress(args: seq<string>, parse: string -> Option<Url>): (a: Address)
    ensures FromArgument(args, parse) ==> a == FromUrl(parse(args[1]).value)
    ensures !FromArgument(args, parse) ==> a == DefaultAddress
  {
    if |args| > 1 then
      match parse(args[1])
      case Some(u) => if u.scheme == "gopher" then FromUrl(u) else DefaultAddress
      case None => DefaultAddress
    else DefaultAddress
  }
}
