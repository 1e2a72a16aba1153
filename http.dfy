/** The parts of an HTTP request the gateway's handlers look at, and the statuses they
    answer with. */
module Http {
  import opened Wrappers

  const StatusOK := 200
  const StatusBadRequest := 400
  const StatusMethodNotAllowed := 405
  const StatusInternalServerError := 500
  const StatusBadGateway := 502

  /** A request method; GET and POST have their own constructors, so the name of any
      other method is neither. */
  datatype Method = Get | Post | OtherMethod(name: OtherMethodName)

  type OtherMethodName = name: string | name != "GET" && name != "POST" witness "PUT"

  /** A character that a link's query carries unchanged when it is written into the link
      unescaped: not white space or a control character (a browser strips or encodes
      those), and not '"' (which ends the link's attribute), '#' (which starts the
      fragment), '%' (which starts an escape), '&' or ';' (which separate parameters) or
      '+' (which decodes to a space). */
  predicate LiteralInQuery(c: char) {
    ' ' < c && c != '"' && c != '#' && c != '%' && c != '&' && c != '+' && c != ';'
  }

  /** A text a link's query carries unchanged when it is written in unescaped. */
  predicate LiteralInQueryText(s: string) {
    forall i | 0 <= i < |s| :: LiteralInQuery(s[i])
  }

  /** A character a link's path carries unchanged when it is written in unescaped: one a
      query carries unchanged that does not start the query either. */
  predicate LiteralInPath(c: char) {
    LiteralInQuery(c) && c != '?'
  }

  /** A text a link's path carries unchanged when it is written in unescaped. */
  predicate LiteralInPathText(s: string) {
    forall i | 0 <= i < |s| :: LiteralInPath(s[i])
  }

  /** The values of a URL query or of a parsed form, one (the first) value per key. */
  type Values = map<string, string>

  /** `url.Values.Get`: the value for `key`, or "" when there is none. */
  function Lookup(values: Values, key: string): (v: string)
    ensures key in values ==> v == values[key]
    ensures key !in values ==> v == ""
  {
    if key in values then values[key] else ""
  }

  /** A request: its method, its URL path and query, and the outcome of parsing its
      form (`None` when `ParseForm` fails). The form holds what `FormValue` reads: the
      values of the body, and of the URL query for keys the body does not have. */
  datatype Request = Request(verb: Method, path: string, query: Values, form: Option<Values>)
}
