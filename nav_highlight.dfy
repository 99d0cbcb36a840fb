/**
 * `highlightActiveNav` (assets/js/main.js): one pass over the header's nav
 * links that adds the `active` class to each link matching the current path.
 */
module NavHighlight {
  import opened Dom

  const ActiveClass := "active"
  const Root := "/"

  /** A `.header-nav a` element: its `href` attribute (null when missing) and its class list. */
  datatype NavLink = NavLink(href: Option<string>, classes: set<string>)

  /** The string `startsWith` compares against: a null argument is converted to "null". */
  function SearchString(href: Option<string>): string {
    if href.Some? then href.value else "null"
  }

  /** The match rule: the root link needs the exact path, any other link a prefix of it. */
  predicate IsActiveFor(href: Option<string>, path: string) {
    || (href == Some(Root) && path == Root)
    || (href != Some(Root) && SearchString(href) <= path)
  }

  /** The root link is active only on the home page. */
  lemma RootIsExact(path: string)
    ensures IsActiveFor(Some(Root), path) <==> path == Root
  {
  }

  /**
   * Any other link is active on every path that begins with its href,
   * character by character: `/blog` is active on `/blogroll`, and an empty href
   * on every page.
   */
  lemma OtherIsPrefix(href: string, path: string, rest: string)
    requires href != Root
    ensures IsActiveFor(Some(href), href + rest)
    ensures IsActiveFor(Some(href), path) ==> path == href + path[|href|..]
    ensures IsActiveFor(Some(""), path)
  {
  }

  /** One link after the pass: `active` added on a match, nothing ever removed. */
  function MarkActive(link: NavLink, path: string): (r: NavLink)
    ensures r.href == link.href
    ensures link.classes <= r.classes && r.classes - link.classes <= {ActiveClass}
    ensures ActiveClass in r.classes <==> ActiveClass in link.classes || IsActiveFor(link.href, path)
  {
    if IsActiveFor(link.href, path) then link.(classes := link.classes + {ActiveClass}) else link
  }

  /** The pass over the whole list, link by link. */
  function Highlighted(links: seq<NavLink>, path: string): (r: seq<NavLink>)
    ensures |r| == |links|
  {
    if links == [] then [] else [MarkActive(links[0], path)] + Highlighted(links[1..], path)
  }

  lemma {:induction false} HighlightedAt(links: seq<NavLink>, path: string, k: nat)
    requires k < |links|
    ensures Highlighted(links, path)[k] == MarkActive(links[k], path)
  {
    if k > 0 {
      HighlightedAt(links[1..], path, k - 1);
    }
  }

  /** Running the pass a second time changes nothing. */
  lemma {:induction false} HighlightedIdempotent(links: seq<NavLink>, path: string)
    ensures Highlighted(Highlighted(links, path), path) == Highlighted(links, path)
  {
    var once := Highlighted(links, path);
    forall k | 0 <= k < |links|
      ensures Highlighted(once, path)[k] == once[k]
    {
      HighlightedAt(links, path, k);
      HighlightedAt(once, path, k);
    }
  }

  /** `highlightActiveNav()`: the `forEach` over the nav links, in place. */
  method HighlightActiveNav(links: array<NavLink>, currentPath: string)
    modifies links
    ensures links[..] == Highlighted(old(links[..]), currentPath)
  {
    ghost var before := links[..];
    for i := 0 to links.Length
      invariant forall k :: 0 <= k < i ==> links[k] == MarkActive(before[k], currentPath)
      invariant forall k :: i <= k < links.Length ==> links[k] == before[k]
    {
      var href := links[i].href;
      if href == Some(Root) && currentPath == Root {
        links[i] := links[i].(classes := links[i].classes + {ActiveClass});
      } else if href != Some(Root) && SearchString(href) <= currentPath {
        links[i] := links[i].(classes := links[i].classes + {ActiveClass});
      }
    }
    forall k | 0 <= k < links.Length
      ensures links[..][k] == Highlighted(before, currentPath)[k]
    {
      HighlightedAt(before, currentPath, k);
    }
  }
}
