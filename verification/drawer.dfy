/** The mobile navigation drawer controller: an event-driven state machine over the
    toggle's `aria-expanded`, the menu's `hidden` attribute and `open` class, the body's
    `overflow` style, the saved focus, the cached focusable list and the focused element. */
module Drawer {
  import opened Options
  import opened Dom

  /** Everything the controller reads or writes. `toggle` is the `.menu-toggle` element and never
      changes; `previouslyFocused` is None while undefined or null; `active` is `document.activeElement`,
      None when that is null (a browser reports the body, an ordinary `Elem` here, when nothing has focus). */
  datatype State = State(
    toggle: Elem,
    ariaExpanded: string,
    hidden: bool,
    open: bool,
    bodyOverflow: string,
    previouslyFocused: Option<Elem>,
    focusables: seq<Elem>,
    active: Option<Elem>)

  /** The events the controller reacts to. `query` is what `menu.querySelectorAll('a[href],
      button:not([disabled])')` would return at the moment of the event. `FocusMoved` is the
      browser moving focus on its own (native Tab traversal, pointer focus); the controller has
      no handler for it. */
  datatype Event =
    | ToggleClick(query: seq<Elem>)
    | MenuClick(target: Elem)
    | KeyDown(key: string, shiftKey: bool, query: seq<Elem>)
    | FocusMoved(to: Option<Elem>)

  /** The state after a handler, and whether it called `event.preventDefault()`. */
  datatype Outcome = Outcome(state: State, preventDefault: bool)

  /** JavaScript's `String(b)` on a boolean. */
  function BoolString(b: bool): (r: string)
    ensures r == "true" <==> b
    ensures r == "false" <==> !b
  {
    if b then "true" else "false"
  }

  /** The four visible flags all say the same thing about whether the drawer is open. */
  predicate FlagsAgree(s: State) {
    && (s.ariaExpanded == "true" <==> s.open)
    && (s.ariaExpanded == "false" <==> !s.open)
    && (s.hidden <==> !s.open)
    && (s.bodyOverflow == "hidden" <==> s.open)
  }

  /** The part of the state that `setAria` does not write. */
  predicate SameBeyondFlags(a: State, b: State) {
    a.(ariaExpanded := b.ariaExpanded, hidden := b.hidden, open := b.open, bodyOverflow := b.bodyOverflow) == b
  }

  /** `setAria(isOpen)`: writes all four flags from `isOpen` and nothing else. */
  function SetAria(s: State, isOpen: bool): (r: State)
    ensures r.open == isOpen && FlagsAgree(r)
    ensures !isOpen ==> r.bodyOverflow == ""
    ensures SameBeyondFlags(s, r)
  {
    s.(ariaExpanded := BoolString(isOpen), hidden := !isOpen, open := isOpen,
       bodyOverflow := if isOpen then "hidden" else "")
  }

  /** `focusFirstElement()`: caches a fresh focusable list and focuses its first element
      without `data-close` (falling back to the first one); an empty list moves no focus. */
  function FocusFirstElement(s: State, query: seq<Elem>): (r: State)
    ensures r.focusables == query
    ensures |query| == 0 ==> r.active == s.active
    ensures |query| > 0 ==> r.active.Some? && r.active.value in query
    ensures |query| > 0 ==> r.active == FocusTarget(query)
    ensures r.(focusables := s.focusables, active := s.active) == s
  {
    match FocusTarget(query)
    case Some(e) => s.(focusables := query, active := Some(e))
    case None => s.(focusables := query)
  }

  /** `closeMenu(returnFocus)`: nothing when the drawer is not open; otherwise every flag says
      closed and, when `returnFocus`, focus goes to the saved element or else to the toggle. */
  function CloseMenu(s: State, returnFocus: bool): (r: State)
    ensures !s.open ==> r == s
    ensures s.open ==> !r.open && FlagsAgree(r) && r.bodyOverflow == ""
    ensures s.open && returnFocus && s.previouslyFocused.Some? ==> r.active == s.previouslyFocused
    ensures s.open && returnFocus && s.previouslyFocused.None? ==> r.active == Some(s.toggle)
    ensures !returnFocus ==> r.active == s.active
    ensures r.toggle == s.toggle && r.previouslyFocused == s.previouslyFocused && r.focusables == s.focusables
  {
    if !s.open then s
    else
      var closed := SetAria(s, false);
      if returnFocus then closed.(active := Some(s.previouslyFocused.GetOr(s.toggle))) else closed
  }

  /** `openMenu()`: remembers the focused element, sets every flag to open, then focuses the
      first suitable element of a freshly queried focusable list. */
  function OpenMenu(s: State, query: seq<Elem>): (r: State)
    ensures r.open && FlagsAgree(r)
    ensures r.previouslyFocused == s.active
    ensures r.focusables == query
    ensures |query| == 0 ==> r.active == s.active
    ensures |query| > 0 ==> r.active == FocusTarget(query) && r.active.Some? && r.active.value in query
    ensures r.toggle == s.toggle
  {
    FocusFirstElement(SetAria(s.(previouslyFocused := s.active), true), query)
  }

  /** The toggle's click handler: close (returning focus) when open, open otherwise. */
  function OnToggleClick(s: State, query: seq<Elem>): (r: State)
    ensures r.open == !s.open && FlagsAgree(r)
    ensures s.open ==> r == CloseMenu(s, true)
    ensures !s.open ==> r == OpenMenu(s, query)
  {
    if s.open then CloseMenu(s, true) else OpenMenu(s, query)
  }

  /** The menu's click handler, by priority: a click outside the inner panel closes with focus
      return; a click inside a `data-close` element prevents the default action and closes with
      focus return (even when the drawer is already closed the default is prevented); a click
      inside a same-page link closes without moving focus; anything else does nothing. */
  function OnMenuClick(s: State, target: Elem): (o: Outcome)
    ensures o.preventDefault <==> target.inPanel && target.inDataClose
    ensures !target.inPanel ==> o.state == CloseMenu(s, true)
    ensures target.inPanel && target.inDataClose ==> o.state == CloseMenu(s, true)
    ensures target.inPanel && !target.inDataClose && target.inHashLink ==> o.state == CloseMenu(s, false)
    ensures target.inPanel && !target.inDataClose && !target.inHashLink ==> o.state == s
  {
    if !target.inPanel then Outcome(CloseMenu(s, true), false)
    else if target.inDataClose then Outcome(CloseMenu(s, true), true)
    else if target.inHashLink then Outcome(CloseMenu(s, false), false)
    else Outcome(s, false)
  }

  /** Tab while open: the cached focusable list is reused and queried again only when it is
      empty; Shift+Tab on the first cached element wraps to the last and Tab on the last wraps to
      the first, both preventing the default; otherwise focus is left alone. */
  function OnTab(s: State, shiftKey: bool, query: seq<Elem>): (o: Outcome)
    ensures |s.focusables| > 0 ==> o.state.focusables == s.focusables
    ensures |s.focusables| == 0 ==> o.state.focusables == query
    ensures o.state.(focusables := s.focusables, active := s.active) == s
    ensures !o.preventDefault ==> o.state.active == s.active
    ensures o.preventDefault <==>
              var list := o.state.focusables;
              |list| > 0 &&
              ((shiftKey && s.active == Some(list[0])) || (!shiftKey && s.active == Some(list[|list| - 1])))
    ensures o.preventDefault && shiftKey ==> o.state.active == Some(o.state.focusables[|o.state.focusables| - 1])
    ensures o.preventDefault && !shiftKey ==> o.state.active == Some(o.state.focusables[0])
  {
    var list := if |s.focusables| > 0 then s.focusables else query;
    var t := s.(focusables := list);
    if |list| == 0 then Outcome(t, false)
    else if shiftKey && s.active == Some(list[0]) then Outcome(t.(active := Some(list[|list| - 1])), true)
    else if !shiftKey && s.active == Some(list[|list| - 1]) then Outcome(t.(active := Some(list[0])), true)
    else Outcome(t, false)
  }

  /** The document's keydown handler: nothing while closed; Escape prevents the default and
      closes with focus return; Tab runs the focus trap; other keys do nothing. */
  function OnKeyDown(s: State, key: string, shiftKey: bool, query: seq<Elem>): (o: Outcome)
    ensures !s.open ==> o == Outcome(s, false)
    ensures s.open && key == "Escape" ==> o.preventDefault && o.state == CloseMenu(s, true) && !o.state.open
    ensures s.open && key == "Tab" ==> o == OnTab(s, shiftKey, query) && o.state.open
    ensures key != "Escape" && key != "Tab" ==> o == Outcome(s, false)
  {
    if !s.open then Outcome(s, false)
    else if key == "Escape" then Outcome(CloseMenu(s, true), true)
    else if key == "Tab" then OnTab(s, shiftKey, query)
    else Outcome(s, false)
  }

  /** One event delivered to the controller. */
  function Step(s: State, e: Event): (o: Outcome)
    ensures o.state.toggle == s.toggle
    ensures FlagsAgree(s) ==> FlagsAgree(o.state)
    ensures o.state.open != s.open ==> FlagsAgree(o.state)
    ensures e.ToggleClick? ==> !o.preventDefault && o.state.open == !s.open
    ensures e.FocusMoved? ==> o == Outcome(s.(active := e.to), false)
  {
    match e
    case ToggleClick(query) => Outcome(OnToggleClick(s, query), false)
    case MenuClick(target) => OnMenuClick(s, target)
    case KeyDown(key, shiftKey, query) => OnKeyDown(s, key, shiftKey, query)
    case FocusMoved(to) => Outcome(s.(active := to), false)
  }

  /** The state after delivering `events` in order. */
  function Run(s: State, events: seq<Event>): (r: State)
    decreases |events|
  {
    if |events| == 0 then s else Run(Step(s, events[0]).state, events[1..])
  }
}
