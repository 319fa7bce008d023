/** Page elements as the drawer sees them: an identity plus the few selector queries its handlers make. */
module Dom {
  import opened Options

  /** One element of the page. Equality of two `Elem` values is element identity (`===`).
      - `hasDataClose`: the element itself carries the `data-close` attribute;
      - `inDataClose`: `closest('[data-close]')` finds the element or one of its ancestors;
      - `inPanel`: `closest('.mobile-drawer__panel')` finds the element or one of its ancestors;
      - `inHashLink`: `closest('a[href^="#"]')` finds the element or one of its ancestors.
      Since `closest` also tests the element itself, a real element always has
      `hasDataClose ==> inDataClose`; no property here depends on that. */
  datatype Elem = Elem(
    id: nat,
    hasDataClose: bool,
    inDataClose: bool,
    inPanel: bool,
    inHashLink: bool)

  /** The `find` predicate used when the drawer opens: an element without its own `data-close`. */
  predicate LacksDataClose(e: Elem) {
    !e.hasDataClose
  }

  /** The element that receives focus when the drawer opens: the first focusable element
      without `data-close`, falling back to the first focusable element, or nothing when
      the list is empty. */
  function FocusTarget(focusables: seq<Elem>): (r: Option<Elem>)
    ensures r.None? <==> |focusables| == 0
    ensures r.Some? ==> r.value in focusables
    ensures (exists i :: 0 <= i < |focusables| && !focusables[i].hasDataClose) ==>
              exists k :: 0 <= k < |focusables| && r == Some(focusables[k]) && !focusables[k].hasDataClose &&
                forall j :: 0 <= j < k ==> focusables[j].hasDataClose
    ensures (forall i :: 0 <= i < |focusables| ==> focusables[i].hasDataClose) && |focusables| > 0 ==>
              r == Some(focusables[0])
  {
    match FirstIndex(focusables, LacksDataClose)
    case Some(k) => Some(focusables[k])
    case None => if |focusables| == 0 then None else Some(focusables[0])
  }
}
