/** The in-page anchor click handler `go`: whether it takes over the click and where it scrolls. */
module Scroll {
  import opened Options

  /** One node on the path from the click target outward to the document root: an `<a>`
      element with its `href` attribute, or any other node. */
  datatype Node = Anchor(href: string) | Other

  datatype Behavior = Auto | Smooth

  datatype ScrollTo = ScrollTo(top: int, behavior: Behavior)

  /** Whether `event.preventDefault()` was called, and the `window.scrollTo` call made, if any. */
  datatype GoResult = GoResult(preventDefault: bool, scroll: Option<ScrollTo>)

  /** What `go` reads from the page besides the click path: the `.site-header` height when a
      header exists, `window.scrollY`, the reduced-motion media query, and the viewport top of
      every element that the lookup by `id` finds (`getElementById`, then `[id="..."]` with the
      id passed through `CSS.escape`). */
  datatype Page = Page(headerHeight: Option<nat>, scrollY: int, reducedMotion: bool, tops: map<string, int>)

  /** The `a[href^="#"]` selector. */
  predicate IsHashAnchor(n: Node) {
    n.Anchor? && |n.href| > 0 && n.href[0] == '#'
  }

  /** `k` is where `closest('a[href^="#"]')` stops on `path`. */
  predicate ClosestHashAnchorAt(path: seq<Node>, k: int) {
    0 <= k < |path| && IsHashAnchor(path[k]) && forall i :: 0 <= i < k ==> !IsHashAnchor(path[i])
  }

  /** The fragment after `#` of the closest same-page anchor on `path`, if there is one. */
  function ClosestFragment(path: seq<Node>): (r: Option<string>)
    ensures r.None? <==> forall i :: 0 <= i < |path| ==> !IsHashAnchor(path[i])
    ensures forall k :: ClosestHashAnchorAt(path, k) ==> r == Some(path[k].href[1..])
  {
    match FirstIndex(path, IsHashAnchor)
    case None => None
    case Some(k) => Some(path[k].href[1..])
  }

  /** The part of `go` after the anchor is found: look the fragment up and scroll to it. */
  function ScrollToFragment(fragment: Option<string>, page: Page): (r: GoResult)
    ensures r.scroll.Some? <==> fragment.Some? && fragment.value != "" && fragment.value in page.tops
    ensures r.scroll.Some? ==> r.preventDefault && r.scroll.value.top + (page.headerHeight.GetOr(0) + 8) == page.tops[fragment.value] + page.scrollY
    ensures r.scroll.None? ==> r == GoResult(false, None)
    ensures r.scroll.Some? ==> (r.scroll.value.behavior == Auto <==> page.reducedMotion)
  {
    match fragment
    case None => GoResult(false, None)
    case Some(id) =>
      if id == "" || id !in page.tops then GoResult(false, None)
      else
        var top := page.tops[id] + page.scrollY - (page.headerHeight.GetOr(0) + 8);
        GoResult(true, Some(ScrollTo(top, if page.reducedMotion then Auto else Smooth)))
  }

  /** The handler: find the closest same-page anchor; give up without preventing the default when
      there is none, when its fragment is empty or when no element has that id; otherwise prevent
      the default and request a scroll to the position that, if the page reaches it exactly, puts
      the target 8 pixels below the header (or 8 pixels below the viewport top when there is no
      header), instantly under reduced motion and smoothly otherwise. The browser may clamp the
      requested position at either end of the page. */
  function Go(path: seq<Node>, page: Page): (r: GoResult)
    ensures r.preventDefault <==> r.scroll.Some?
    ensures (forall i :: 0 <= i < |path| ==> !IsHashAnchor(path[i])) ==> r == GoResult(false, None)
    ensures forall k :: ClosestHashAnchorAt(path, k) ==>
              var id := path[k].href[1..];
              (r.scroll.Some? <==> id != "" && id in page.tops) &&
              (r.scroll.Some? ==> r.scroll.value.top + (page.headerHeight.GetOr(0) + 8) == page.tops[id] + page.scrollY)
    ensures r.scroll.Some? ==> (r.scroll.value.behavior == Auto <==> page.reducedMotion)
  {
    ScrollToFragment(ClosestFragment(path), page)
  }

  /** If the page scrolls exactly to the requested `top`, the target's viewport top is the header
      height (0 without a header) plus 8. */
  lemma TargetLandsBelowHeader(path: seq<Node>, page: Page, k: int)
    requires ClosestHashAnchorAt(path, k)
    requires Go(path, page).scroll.Some?
    ensures var id := path[k].href[1..];
            id in page.tops &&
            page.tops[id] + page.scrollY - Go(path, page).scroll.value.top == (page.headerHeight.GetOr(0) + 8)
  {
  }

  /** Only the closest anchor matters: hash anchors further out on the path are never consulted. */
  lemma ClosestAnchorDecides(path: seq<Node>, outer: seq<Node>, page: Page, k: nat)
    requires ClosestHashAnchorAt(path, k)
    ensures ClosestFragment(path + outer) == ClosestFragment(path)
    ensures Go(path + outer, page) == Go(path, page)
  {
    var whole := path + outer;
    assert whole[k] == path[k];
    assert forall i :: 0 <= i < k ==> whole[i] == path[i];
    assert ClosestHashAnchorAt(whole, k);
    assert ClosestFragment(whole) == Some(path[k].href[1..]);
    assert ClosestFragment(path) == Some(path[k].href[1..]);
  }

  /** A click on `<a href="#target">` with a 100-pixel header, no scroll and the target 500 pixels
      down scrolls smoothly to 392. */
  lemma HeaderOffsetExample()
    ensures Go([Anchor("#target")], Page(Some(100), 0, false, map["target" := 500]))
            == GoResult(true, Some(ScrollTo(392, Smooth)))
  {
  }
}
