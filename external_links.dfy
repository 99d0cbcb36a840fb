/**
 * `initExternalLinks` (assets/js/main.js): links whose `href` starts with
 * "http" and that point at another host are opened in a new tab.
 */
module ExternalLinks {
  import opened Dom

  const HttpPrefix := "http"
  const NewTab := "_blank"
  const SafeRel := "noopener noreferrer"

  /**
   * An anchor: its `href` attribute, the hostname of its resolved URL, and its
   * `target` and `rel` attributes (None when absent).
   */
  datatype Anchor = Anchor(href: string, host: string, target: Option<string>, rel: Option<string>)

  /** Matched by the selector `a[href^="http"]`. */
  predicate Selected(a: Anchor) {
    HttpPrefix <= a.href
  }

  /** One anchor after the pass. */
  function Annotate(a: Anchor, pageHost: string): (r: Anchor)
    ensures r != a <==> Selected(a) && a.target.None? && a.host != pageHost
    ensures r != a ==> r == a.(target := Some(NewTab), rel := Some(SafeRel))
  {
    if !Selected(a) || a.target.Some? then a
    else if a.host != pageHost then a.(target := Some(NewTab), rel := Some(SafeRel))
    else a
  }

  /** The pass over the whole list, anchor by anchor. */
  function Annotated(links: seq<Anchor>, pageHost: string): (r: seq<Anchor>)
    ensures |r| == |links|
  {
    if links == [] then [] else [Annotate(links[0], pageHost)] + Annotated(links[1..], pageHost)
  }

  lemma {:induction false} AnnotatedAt(links: seq<Anchor>, pageHost: string, k: nat)
    requires k < |links|
    ensures Annotated(links, pageHost)[k] == Annotate(links[k], pageHost)
  {
    if k > 0 {
      AnnotatedAt(links[1..], pageHost, k - 1);
    }
  }

  /**
   * After the pass every selected link to another host has a target (its own
   * or `_blank`), and every same-host or unselected link is as it was.
   */
  lemma AnnotatedOutcome(links: seq<Anchor>, pageHost: string, k: nat)
    requires k < |links|
    ensures Selected(links[k]) && links[k].host != pageHost ==> Annotated(links, pageHost)[k].target.Some?
    ensures !Selected(links[k]) || links[k].host == pageHost ==> Annotated(links, pageHost)[k] == links[k]
  {
    AnnotatedAt(links, pageHost, k);
  }

  /** Running the pass a second time changes nothing. */
  lemma {:induction false} AnnotatedIdempotent(links: seq<Anchor>, pageHost: string)
    ensures Annotated(Annotated(links, pageHost), pageHost) == Annotated(links, pageHost)
  {
    var once := Annotated(links, pageHost);
    forall k | 0 <= k < |links|
      ensures Annotated(once, pageHost)[k] == once[k]
    {
      AnnotatedAt(links, pageHost, k);
      AnnotatedAt(once, pageHost, k);
    }
  }

  /** `initExternalLinks()`: the `forEach` over the selected links, in place. */
  method InitExternalLinks(links: array<Anchor>, pageHost: string)
    modifies links
    ensures links[..] == Annotated(old(links[..]), pageHost)
  {
    ghost var before := links[..];
    for i := 0 to links.Length
      invariant forall k :: 0 <= k < i ==> links[k] == Annotate(before[k], pageHost)
      invariant forall k :: i <= k < links.Length ==> links[k] == before[k]
    {
      if !Selected(links[i]) || links[i].target.Some? {
        continue;
      }
      if links[i].host != pageHost {
        links[i] := links[i].(target := Some(NewTab), rel := Some(SafeRel));
      }
    }
    forall k | 0 <= k < links.Length
      ensures links[..][k] == Annotated(before, pageHost)[k]
    {
      AnnotatedAt(before, pageHost, k);
    }
  }
}
