/**
 * The icon a bookmark gets when the user supplies none: Google's favicon
 * service queried with the page's hostname, or an inline globe drawing when
 * the URL does not parse. Parsing the URL is done by the browser's `URL`
 * class; here its outcome is given as an optional hostname.
 */
module Favicons {
  import opened Json

  const FaviconService: string := "https://www.google.com/s2/favicons?domain="
  const FaviconSize: string := "&sz=64"

  /** `https://www.google.com/s2/favicons?domain=${domain}&sz=64` */
  function FaviconUrl(hostname: string): (r: string)
    ensures |r| == |FaviconService| + |hostname| + |FaviconSize|
  {
    FaviconService + hostname + FaviconSize
  }

  /**
   * The favicon URL is the service prefix, then the hostname, then the size
   * suffix; so the hostname can be read back out of it, and distinct hosts
   * get distinct icons.
   */
  lemma FaviconUrlHost(hostname: string)
    ensures FaviconUrl(hostname)[..|FaviconService|] == FaviconService
    ensures FaviconUrl(hostname)[|FaviconService|..|FaviconService| + |hostname|] == hostname
    ensures FaviconUrl(hostname)[|FaviconService| + |hostname|..] == FaviconSize
  {
    var r := FaviconUrl(hostname);
    assert r == FaviconService + (hostname + FaviconSize);
  }

  lemma FaviconUrlInjective(a: string, b: string)
    ensures FaviconUrl(a) == FaviconUrl(b) ==> a == b
  {
    FaviconUrlHost(a);
    FaviconUrlHost(b);
  }

  /** The drawing used when the URL cannot be parsed. */
  const DefaultIcon: string :=
    "data:image/svg+xml,<svg xmlns=\"http://www.w3.org/2000/svg\" width=\"64\" height=\"64\" viewBox=\"0 0 24 24\" fill=\"none\" stroke=\"currentColor\" stroke-width=\"2\" stroke-linecap=\"round\" stroke-linejoin=\"round\"><circle cx=\"12\" cy=\"12\" r=\"10\"/><path d=\"M12 2a14.5 14.5 0 0 0 0 20 14.5 14.5 0 0 0 0-20\"/><path d=\"M2 12h20\"/></svg>"

  /** `getFavicon(url)`: the service URL for a parsed hostname, the drawing otherwise. */
  function Favicon(hostname: Option<string>): string {
    match hostname
    case Some(h) => FaviconUrl(h)
    case None => DefaultIcon
  }
}
