/**
 * The parts of a parsed URL that the scraper reads and rebuilds. Parsing
 * itself (`new URL(...)`) is not modelled: a parsed URL is given, and a
 * string that does not parse is `None` where the scraper catches that.
 */
module Urls {
  import opened Text

  /** A parsed absolute URL; `search` and `hash` keep their leading `?` and `#`. */
  datatype Url = Url(origin: string, pathname: string, search: string, hash: string)

  /** `url.href` / `url.toString()`. */
  function Href(u: Url): string {
    u.origin + u.pathname + u.search + u.hash
  }

  /** The path that both variants append to a profile path to reach the skills page. */
  const SKILLS_SUFFIX: string := "/details/skills/"

  /** `p.endsWith('/') ? p.slice(0, -1) : p`. */
  function DropTrailingSlash(p: string): (r: string)
    ensures r == p || r + "/" == p
    ensures |p| > 0 && p[|p| - 1] == '/' ==> |r| == |p| - 1
  {
    if |p| > 0 && p[|p| - 1] == '/' then p[..|p| - 1] else p
  }

  /** Whatever the path holds, the href holds. */
  lemma PathInHref(u: Url, t: string)
    requires Contains(u.pathname, t)
    ensures Contains(Href(u), t)
  {
    var h := Href(u);
    var i, j := |u.origin|, |u.origin| + |u.pathname|;
    assert h[i..j] == u.pathname;
    ContainsSlice(h, t, i, j);
  }
}
