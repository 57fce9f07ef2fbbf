/**
 * What the gateway sees of HTTP: header maps keyed by lower-case name (the
 * `Headers` object is case-insensitive) and the replies it builds, among
 * them the JSON error reply every route uses (`createErrorResponse`).
 */
module Http {
  /** A header map, names in lower case. */
  type Headers = map<string, string>

  /** `headers.get(name)` is truthy: the header is there with a non-empty value. */
  predicate Present(h: Headers, name: string)
  {
    name in h && h[name] != ""
  }

  /** A reply produced without reaching any upstream, or an upstream reply passed back. */
  datatype Reply =
    | Failure(status: int, message: string)
    | Forwarded(status: int, headers: Headers)
    | NoContent(headers: Headers)
}
