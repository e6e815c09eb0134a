/**
 * What the crawlers see of the web.  A fetched document is reduced to its text and the
 * anchors a parser would report; a fetch is a function from URL to an optional document,
 * `None` standing for a network error, an HTTP error status or an empty body.
 */
module Web {

  /** An `<a href=...>` element: its href attribute and its text content. */
  datatype Anchor = Anchor(href: string, text: string)

  /** A fetched HTML document: the raw text and its anchors that carry an href, in document order. */
  datatype Page = Page(html: string, anchors: seq<Anchor>)

  /**
   * URL handling the crawlers delegate to the standard library: reference resolution
   * (`urljoin`, section 5.2 of RFC 3986) and the authority of a URL (`urlparse(u).netloc`,
   * section 3.2 of RFC 3986).
   */
  datatype UrlOps = UrlOps(resolve: (string, string) -> string, netloc: string -> string)
}
