/** How the page script turns a URL fragment or a link target into the id of the page to show. */
module Router {

  /** The pages a fragment may name at start-up and on `popstate`. */
  const KnownPages: seq<string> := ["home", "services", "about", "contact"]

  /** `href.substring(1)` (and `location.hash.substring(1)`): everything after the first
      character, or the empty string. */
  function LinkTarget(href: string): (t: string)
    ensures |href| > 0 ==> href == [href[0]] + t
    ensures |href| == 0 ==> t == []
  {
    if |href| == 0 then [] else href[1..]
  }

  /** The page `DOMContentLoaded` and `popstate` show for `location.hash`: the fragment's
      target when it is a non-empty known page name, and `home` otherwise. */
  function PageFromHash(hash: string): (p: string)
    ensures p in KnownPages
    ensures p == LinkTarget(hash) || p == "home"
    ensures LinkTarget(hash) in KnownPages ==> p == LinkTarget(hash)
  {
    var target := LinkTarget(hash);
    if target != [] && target in KnownPages then target else "home"
  }

  /** The fragment `showPage` pushes for a page resolves back to that page. */
  lemma HashRoundTrip(p: string)
    requires p in KnownPages
    ensures PageFromHash("#" + p) == p
  {
    assert LinkTarget("#" + p) == p;
  }

  /** A fragment naming no known page, the empty fragment included, shows `home`. */
  lemma UnknownHashShowsHome(hash: string)
    requires LinkTarget(hash) !in KnownPages
    ensures PageFromHash(hash) == "home"
  {
  }

  /** Resolving is idempotent: the resolved page, pushed as a fragment, resolves to itself. */
  lemma ResolveTwice(hash: string)
    ensures PageFromHash("#" + PageFromHash(hash)) == PageFromHash(hash)
  {
    HashRoundTrip(PageFromHash(hash));
  }
}
