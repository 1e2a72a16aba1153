# gofer: a model of the Gopher-to-HTTP gateway

gofer is a small local web server. It lets a browser visit Gopher space (RFC 1436). A
request to the gateway's "/" page names a Gopher server, a port and a selector. The
gateway fetches that resource over TCP and answers with it: a directory listing
becomes an HTML page of links, text is sent as text and other items as bytes.

Two versions are modelled:

- the current one, `gofer.go`;
- version 0.5, `gofer-0.5/gofer.go` with `gofer-0.5/ph_client.go` and `search.go`. It
  adds a PH (CSO directory) client, an index-search handler, a `uri` parameter and an
  item-type parameter.

In both versions only one instance runs. A second launch hands its gopher:// URI to the
first through the "/focus" page, and the gateway ends itself after a minute without
requests.

The model covers:

- **Menu lines.** How a listing is cut into lines and fields, and which record each line
  yields (`menu.dfy`, `menu_root.dfy`, `menu_v05.dfy`). This includes the version
  differences: a "." line ends the listing only in 0.5, and the display text is trimmed
  at both ends in the current version but only at the right in 0.5. It also keeps the
  quirks: an empty first field in a four-field line crashes the handler, and a CRLF line
  end leaves a '\r' on the port.
- **Dispatch.** How each record is rendered: a link back into the gateway, a search
  form, a PH form, or inert text.
- **Fetching.** A connection becomes a sequence of reads (`transport.dfy`). Which read
  failures still count as a successful fetch differs between the versions.
- **The "/" handler.** How each version's handler works out the address and the type,
  and the synthetic error listing of 0.5 (`gateway_root.dfy`, `gateway_v05.dfy`).
- **Shared gateway parts.** The "/focus" handler and the choice between a first and a
  second instance at start-up (`gateway.dfy`).
- **PH client.** The route, the greeting, the query and the handler (`ph_client.dfy`).
- **Index search.** The search handler and its query (`search.dfy`).
- **Inactivity monitor.** The monitor, as a class whose timestamp the handlers update,
  and the routes that do and do not count as activity (`activity.dfy`).
- **Go semantics.** The few Go `strings` operations the parsing depends on, with Go's
  semantics (`go_strings.dfy`).

## Model

| member | source | states |
|---|---|---|
| GoStrings.TrimSpace | gofer.go:195 | the result is empty exactly when the line is all Unicode white space, and otherwise starts and ends with a non-space character |
| GoStrings.TrimSpaceIsInfix | gofer.go:195 | trimming only removes white space, at the two ends: the result occurs in the line, and everything before and after it is white space |
| GoStrings.TrimRight | gofer-0.5/gofer.go:279 | the result is a prefix, everything cut off is in the cut set, and the last kept character is not |
| GoStrings.TrimPrefix | gofer-0.5/ph_client.go:25 | the prefix is removed exactly once when the path starts with it, and otherwise the path is unchanged |
| GoStrings.Split | gofer-0.5/gofer.go:240 | there is always at least one piece, and no piece holds the separator |
| GoStrings.JoinSplit | gofer-0.5/gofer.go:240 | joining the pieces with the separator gives back the text, so nothing is lost when a reply is cut into lines |
| GoStrings.SplitJoin | gofer-0.5/gofer.go:254 | splitting a join of separator-free pieces gives back exactly those pieces |
| GoStrings.SplitConcat | gofer-0.5/gofer.go:240 | a newline between two texts splits into the lines of the first followed by the lines of the second |
| Menu.ScanAppend | gofer-0.5/gofer.go:242-283 | when no line ends the listing, the records of two runs of lines are the first run's followed by the second run's |
| Menu.ScanStop | gofer-0.5/gofer.go:249-251 | nothing after a line that ends the listing contributes to it |
| Menu.ScanSkip | gofer-0.5/gofer.go:244-246 | a line that contributes nothing can be removed without changing the listing |
| Menu.ScanRecordsEmitted | gofer-0.5/gofer.go:242-283 | every listed record was produced by one of the lines |
| Menu.ScanFirstCrash | gofer-0.5/gofer.go:242-283 | when no earlier line ends the listing or crashes, the first crashing line decides the listing, whatever follows it |
| MenuRoot.FormatMenu | gofer.go:191-256 | the line loop renders exactly the items of the records the reply's lines yield, in order, or ends in the crash on the first four-field line whose first field is empty |
| MenuRoot.NeverStops | gofer.go:195-198 | no line ends the listing; a "." line is skipped like a blank one, so the lines after it are still read |
| MenuRoot.MalformedLine | gofer.go:208-213 | `Classify`: a line of fewer than four fields is never dropped: it becomes a type-3 record whose display is the malformed-line prefix and the trimmed line, with selector "/" and the listing's own host and port |
| MenuRoot.CrashIff | gofer.go:195-217 | `Classify` crashes exactly on a line that trims neither to "" nor to "." and has four or more fields of which the first is empty, and the crash names that line |
| MenuRoot.NoEmptyDisplay | gofer.go:227-231 | no record of any listing has an empty display |
| MenuRoot.FirstCrashLine | gofer.go:193-217 | the first crashing line of a reply crashes the handler whatever follows it, so none of the records before it is shown |
| MenuRoot.DispatchTable | gofer.go:236-256 | `Dispatch`: exactly the '0' and '1' records become links, to "/" with the record's type, host, port, selector and display; every other record is inert text with its display, an error note exactly for '3' and an information note exactly for 'i' |
| MenuRoot.WellFormedLine | gofer.go:201-231 | a line joined from four or more tab-free fields, the first non-empty, that trims neither to "" nor to "." gives back the record of its first four fields, whatever its type character, with the display trimmed at both ends |
| MenuRoot.ListingInLineOrder | gofer.go:191-231 | for any two parts of a reply, the records are the first part's followed by the second part's |
| MenuRoot.SkippedLineIgnored | gofer.go:195-198 | a blank or "." line anywhere changes nothing, so the lines after a "." line are still listed |
| GatewayRoot.LinksLeadToListings | gofer.go:236-241 | type '0' and '1' records whose host, port and selector hold no character that query decoding changes become links whose query asks "/" for the record's address with the defaults; the reply is shown as a listing whatever its type |
| MenuV05.FormatMenu | gofer-0.5/gofer.go:240-384 | the line loop renders exactly the items of the records before the first "." line, in order, or ends in the crash on the first four-field line whose first field is empty |
| MenuV05.StopIff | gofer-0.5/gofer.go:249-251 | a line ends the listing if and only if it trims to "." |
| MenuV05.MalformedLine | gofer-0.5/gofer.go:261-266 | `Classify`: a line of fewer than four fields is never dropped: it becomes a type-3 record whose display is the malformed-line prefix and the trimmed line, with selector "/" and the listing's own host and port |
| MenuV05.CrashIff | gofer-0.5/gofer.go:244-270 | `Classify` crashes exactly on a line that trims neither to "" nor to "." and has four or more fields of which the first is empty, and the crash names that line |
| MenuV05.NoEmptyDisplay | gofer-0.5/gofer.go:279-283 | no record of any listing has an empty display |
| MenuV05.FirstCrashLine | gofer-0.5/gofer.go:242-270 | the first crashing line of a reply, when no "." line comes before it, crashes the handler whatever follows it, so none of the records before it is shown |
| MenuV05.DispatchTable | gofer-0.5/gofer.go:288-384 | `Dispatch`: exactly the '3' and 'i' records are inert notes, an error note exactly for '3'; every item shows the record's display; a '2' record links to the PH form for its host and its port or 105, returning to the listing; a '7' record to the search form for its host, port and selector; every other record to "/" with its own type, host, port and selector |
| MenuV05.WellFormedLine | gofer-0.5/gofer.go:254-279 | a line joined from four or more tab-free fields, the first non-empty, that trims neither to "" nor to "." gives back the record of its first four fields, whatever its type character, with the display trimmed at the right |
| MenuV05.CrlfPortKeepsReturn | gofer-0.5/gofer.go:240-279 | in a reply with CRLF line ends, the first line keeps its '\r', and the record's port ends with it |
| MenuV05.BlankLineIgnored | gofer-0.5/gofer.go:244-246 | a blank line anywhere in a reply changes nothing |
| MenuV05.DotLineEndsListing | gofer-0.5/gofer.go:249-251 | the listing of a reply with a "." line is the listing of the text before that line |
| MenuV05.ListingInLineOrder | gofer-0.5/gofer.go:242-283 | when the first part of a reply has no "." line, the records are the first part's followed by the second part's |
| Transport.RequestLineIsOneLine | gofer.go:92 | the request is one line: for a selector without a newline, splitting it at newlines gives the selector with its CR and nothing after the line |
| Transport.GopherRequest | gofer.go:81-128 | the request line is sent only over an established connection; the read loop keeps every read's text and yields it when reading ends at end of file or at the deadline, and fails otherwise |
| Transport.FetchKeepsTextUntilDeadline | gofer.go:104-124 | `Fetch`: a fetch succeeds exactly when the write succeeded and no generic read error occurred, and then holds all the text received |
| Transport.FetchVersionsDiffer | gofer-0.5/gofer.go:88-115 | `Fetch` and `FetchAll`: the two versions' fetches agree except when the deadline is reached: then the current one keeps the text so far and 0.5 reports an error |
| Transport.ReadUntilError | search.go:88-97 | the read loop keeps all text received and stops at the first failing read whatever its error |
| PhClient.ParseRoute | gofer-0.5/ph_client.go:23-40 | the route always parses; the host starts the path after the prefix and holds no ':'; the port is non-empty and holds no ':' |
| PhClient.RouteRoundTrip | gofer-0.5/ph_client.go:23-40 | a route of colon-free pieces parses back to its first two pieces as host and port, with 105 for an empty port |
| PhClient.RouteWithoutPort | gofer-0.5/ph_client.go:33-37 | a route naming only a host gets port 105 |
| PhClient.OldClientKeepsNewPrefix | ph_client.go:17-34 | the older parser, given a route of the 0.5 form, leaves "/ph/" in front of the host |
| PhClient.GreetingOutcome | gofer-0.5/ph_client.go:47-67 | `Greeting`: it fails exactly when the server cannot be reached or the stream fails before its first line, with that reason; otherwise it is the first line trimmed of white space |
| PhClient.GreetingDropsLineEnd | gofer-0.5/ph_client.go:47-67 | the greeting is the first line without its CR LF; ph_client.go:41-61 behaves the same |
| PhClient.QueryLineIsOneLine | gofer-0.5/ph_client.go:137 | the query is sent as one line: for a query without a newline, splitting it at newlines gives "query ", the query and CR, and nothing after the line |
| PhClient.Query | gofer-0.5/ph_client.go:118-152 | the query line is sent only after a greeting line was read; the answer is everything after the greeting up to the first failing read, trimmed |
| PhClient.QueryFailsWithGreeting | gofer-0.5/ph_client.go:118-135 | a query fails exactly when reading the greeting fails, with the same error |
| PhClient.QueryIgnoresGreetingAndEnd | gofer-0.5/ph_client.go:129-151 | the answer depends neither on the greeting's text nor on how the last read failed |
| PhClient.BadQueryRefused | gofer-0.5/ph_client.go:83-93 | `HandlePH`: status 400 exactly for a POST whose form does not parse or whose query is blank, whatever the server |
| PhClient.ServerFailureIsBadGateway | gofer-0.5/ph_client.go:94-108 | `HandlePH`: status 502 exactly when the query (for a POST) or the greeting (otherwise) fails |
| PhClient.ShownPage | gofer-0.5/ph_client.go:69-116 | `HandlePH`: a shown page is for the route's host and port, returns to the "return" parameter or to "/", and holds the answer or the greeting |
| Search.SearchLineFields | search.go:85 | the request line has exactly two tab-separated fields, the selector, and the query followed by CR LF |
| Search.SearchQuery | search.go:72-100 | the request line is sent once connected; the answer is everything received up to the first failing read, trimmed |
| Search.SearchFailsOnlyOnDial | search.go:72-100 | a search fails only when the server cannot be reached; any read error only ends the answer |
| Search.MissingAddressRefused | search.go:16-24 | `HandleSearch`: a missing host, port or selector is refused with 400 before the method is looked at; 400 otherwise only for a POST with an unparsable form or a blank query |
| Search.OnlyQueriesReachServer | search.go:31-70 | `HandleSearch`: only a POST with a non-blank query depends on the server |
| Search.MethodDecides | search.go:31-38 | `HandleSearch`: a GET shows the empty search frame, and exactly the methods other than GET and POST get 405 |
| Search.SearchResults | search.go:52-64 | `HandleSearch`: the results are the answer formatted as a 0.5 listing of the search's own address, and the frame returns to "return" or to "/" |
| Gateway.FromUrl | gofer-0.5/gofer.go:566-573 | the address keeps the URL's host name, takes port 70 when the URL gives none, and drops one leading "/" from the path |
| Gateway.FocusRedirectsOnlyGopherUris | gofer-0.5/gofer.go:535-585 | `HandleFocus`: "/focus" redirects exactly for a non-empty "uri" that parses with scheme "gopher", to that URI's address, and answers 400 otherwise; gofer.go:323-373 is the same |
| Gateway.InitialAddress | gofer-0.5/gofer.go:601-621 | the first page is the first argument's address when that is a gopher:// URI, the default page otherwise; gofer.go:383-403 is the same |
| GatewayRoot.RequestedDefaults | gofer.go:291-305 | `Requested`: every part of the requested address is filled in: given values are kept and missing ones take freeshell.org, 70 and "/" |
| GatewayRoot.FailureIsServerError | gofer.go:307-317 | `ServeGopher`: "/" answers 500 exactly when the fetch fails, and otherwise shows the listing of everything received |
| GatewayRoot.SecondWithoutUriPanics | gofer.go:377-413 | `Start`: without an argument the first instance opens the default page, and a second instance crashes reading the missing argument |
| GatewayRoot.ForwardedUriMatchesPrimary | gofer.go:386-413 | `Start` and `HandleFocus`: the URI a second instance forwards is redirected to exactly the page the first instance would have opened with it, and refused when it would have been ignored |
| GatewayV05.RequestedType | gofer-0.5/gofer.go:484-490 | the type is the first character of the "type" parameter, or '1' when there is none |
| GatewayV05.ResolveDefaults | gofer-0.5/gofer.go:457-467 | `Resolve`: without "uri" every part of the address is filled in: given values are kept and missing ones take the defaults |
| GatewayV05.BadUriKeepsParameters | gofer-0.5/gofer.go:436-456 | `Resolve`: a "uri" that does not parse to a gopher URL leaves host, port and selector as given, empty ones included |
| GatewayV05.ShownByType | gofer-0.5/gofer.go:492-530 | `ServeGopher`: types '0' and 'i' are shown as the text received, type '1' as the listing that text parses to at the resolved address, and every other type, none of them transparent, as the bytes received |
| GatewayV05.UntypedIsListing | gofer-0.5/gofer.go:484-490 | `ServeGopher`: a request without a type is shown as a listing |
| GatewayV05.FailureShown | gofer-0.5/gofer.go:470-481 | `ServeGopher`: a failed fetch is shown as a listing of one error note: "Connection failed: " and the error's text |
| GatewayV05.FailurePage | gofer-0.5/gofer.go:474-479 | the synthetic failure listing renders as that single error note |
| GatewayV05.ErrorListingParses | gofer-0.5/gofer.go:474-475 | an error entry followed by a "." line parses to exactly the type-3 record of its text, with selector "/" and the address's host and port |
| GatewayV05.FetchLinkRoundTrip | gofer-0.5/gofer.go:290-302 | following a fetch link whose type, host and port hold no character that query decoding changes asks "/" for exactly the record's type and address, with defaults for empty parts |
| GatewayV05.SearchLinkRoundTrip | gofer-0.5/gofer.go:352-368 | a '7' record links to the search form with its own host, port and selector, when its host and port hold no character that query decoding changes; following the link with GET shows the empty form for that address, returning to "/", and an empty host, port or selector is refused with 400 |
| GatewayV05.PhLinkRoundTrip | gofer-0.5/gofer.go:304-325 | following a PH link reaches the PH handler for the record's host and its port, 105 when it has none, when host and port are written into the path unchanged |
| GatewayV05.PhLinkSelectorInReturn | gofer-0.5/gofer.go:327-333 | a PH link has no "selector" parameter: the selector ends up in the PH page's return link, after a second '?' |
| GatewayV05.BareFocusRefused | gofer-0.5/gofer.go:633-647 | `Start` and `HandleFocus`: a second instance without a URI asks for a bare "/focus", which the first instance refuses with 400 |
| GatewayV05.ForwardedUriMatchesPrimary | gofer-0.5/gofer.go:604-640 | `Start` and `HandleFocus`: the URI a second instance forwards is redirected to exactly the page the first instance would have opened with it, and refused when it would have been ignored |
| Activity.Monitor.constructor | gofer-0.5/gofer.go:38 | the start of the program counts as activity |
| Activity.Monitor.UpdateActivity | gofer-0.5/gofer.go:41-45 | the last activity becomes now, so the gateway is not idle now |
| Activity.Monitor.Tick | gofer-0.5/gofer.go:52-59 | a tick ends the gateway exactly when more than 60 seconds have passed since the last activity |
| Activity.Monitor.RunUntilIdle | gofer-0.5/gofer.go:47-61 | with no further requests the ticker stops at the first tick that finds the gateway idle; every tick is a whole number of 5-second periods after the first, and the stopping tick is at most 65 seconds after the last activity unless it is the first |
| Activity.Monitor.Handle | gofer-0.5/gofer.go:669-673 | a request resets the last activity exactly when its route's handler records activity, and otherwise leaves it unchanged |
| Activity.Monitor.Focus | gofer-0.5/gofer.go:535-544 | "/focus" records activity before looking at the query, so even a refused request keeps the gateway alive |
| Activity.OnlyNewRoutesDiffer | gofer-0.5/gofer.go:669-673 | `RouteV05` and `RouteRoot`: the two versions route a path differently exactly when it is "/search", "/ph" or under "/ph/" |
| Activity.SearchNeverResetsActivity | search.go:16-70 | in 0.5, of the requests that reach a handler exactly searches do not count as activity; in the current version every request does |

## Left out

- HTML, CSS and JavaScript: the pages are modelled as the items they show. The markup, the icons and the heartbeat script are not modelled. heartmon.go is not part of this model.
- Sockets: a connection is modelled as its outcome. The server cannot be reached, or it takes the request and replies with reads that end in one failure. Dial and read timeouts are just that failure.
- PhClient.Greeting: a stream's chunks are the successive results of `bufio.Reader.ReadString('\n')`, so the greeting is the first chunk. The model does not require a chunk to end with its only newline, so it also admits streams no reader returns; the lemmas hold for those too.
- Transport.GopherRequest, PhClient.Query, Search.SearchQuery: the reply does not depend on what was sent, because the server's behaviour is a parameter. Write errors in the PH and search clients are ignored, as in the source.
- Address joining: `net.JoinHostPort` is not modelled. A peer is the server at the given host and port.
- URL parsing, escaping and decoding: `url.Parse` is the parameter `parse`, and `url.QueryEscape` is `escape`. A link's query is modelled as the parameters it decodes to. That holds only when every field written into the link unescaped holds no character that query decoding changes: no white space or control character, and none of '"', '#', '%', '&', '+' and ';' (`LiteralInQueryText`). The link functions require this of those fields. The PH link writes host and port into its path, ahead of its query, so there they must not hold '?' either (`LiteralInPathText`).
- GatewayRoot.LinksLeadToListings: the root link writes host, port and selector into the query unescaped (gofer.go:241), so a selector such as "/cgi?a=1&b=2" or "c++" does not come back whole; the lemma covers only records whose three fields need no escaping.
- GatewayV05.FetchLinkRoundTrip: the 0.5 fetch links write the item type, host and port unescaped (gofer-0.5/gofer.go:293, 300, 382), so type '+' comes back as ' '; the lemma covers only records whose type, host and port need no escaping. The selector is escaped and needs nothing.
- GatewayV05.SearchLinkRoundTrip: the search link writes host and port unescaped (gofer-0.5/gofer.go:356-360); the lemma covers only records whose host and port need no escaping.
- GatewayV05.PhPath: the PH link writes host and port into its path unescaped (gofer-0.5/gofer.go:321-325); path decoding is not modelled.
- GatewayV05.PhLinkRoundTrip: covers only records whose host and port hold no ':' (the route separator) and only characters the path carries unchanged (`LiteralInPathText`); a host such as "x?selector=y" moves the query out of the path, and that link is not modelled.
- GatewayV05.PhLinkSelectorInReturn: covers only records whose host and port hold only characters the path carries unchanged, for the same reason.
- Error messages: their wording is not modelled. The text of a fetch error is the parameter `describe`.
- Bytes: strings are sequences of characters, so the item type is the first character where the source takes the first byte. Multi-byte UTF-8 text is not modelled byte by byte.
- GatewayV05.ServeGopher: version 0.5 fetches a resource twice. Both fetches are modelled as one peer giving the same reply.
- Content types: `http.DetectContentType` is not modelled. Opaque items are returned as the bytes received.
- GatewayV05.Start, GatewayRoot.Start: browser launching, `os.Exit` and the request the second instance sends are not modelled. Whether the listener could be acquired is an input.
- Routing: the path cleaning and redirects of Go's request multiplexer are not modelled, apart from the redirect of "/ph".
- Activity.Monitor: the mutex and the concurrency between handlers and the ticker are not modelled. Every step runs alone, and time is an integer count of nanoseconds.
- Activity.Monitor.RunUntilIdle: the ticker's real timing is not modelled. Ticks are exactly five seconds apart, and no request arrives while it runs.
- The heartbeat handler is modelled only by the activity it records (route `Heartbeat`). Its empty 200 answer is not modelled.
