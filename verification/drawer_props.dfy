/** Properties of the drawer controller over whole event sequences. */
module DrawerProps {
  import opened Options
  import opened Dom
  import opened Drawer

  /** Once the four flags agree, no sequence of events can make them disagree. */
  lemma {:induction false} RunPreservesFlags(s: State, events: seq<Event>)
    requires FlagsAgree(s)
    ensures FlagsAgree(Run(s, events))
    decreases |events|
  {
    if |events| > 0 {
      RunPreservesFlags(Step(s, events[0]).state, events[1..]);
    }
  }

  /** The toggle element is fixed for the life of the page. */
  lemma {:induction false} RunKeepsToggle(s: State, events: seq<Event>)
    ensures Run(s, events).toggle == s.toggle
    decreases |events|
  {
    if |events| > 0 {
      RunKeepsToggle(Step(s, events[0]).state, events[1..]);
    }
  }

  predicate AllToggleClicks(events: seq<Event>) {
    forall i :: 0 <= i < |events| ==> events[i].ToggleClick?
  }

  /** Repeated toggle clicks strictly alternate: after n clicks the drawer is open exactly when
      it started closed and n is odd, or started open and n is even; after at least one click
      the flags agree whatever the markup started with. */
  lemma {:induction false} ToggleClicksAlternate(s: State, events: seq<Event>)
    requires AllToggleClicks(events)
    ensures Run(s, events).open <==> (s.open != (|events| % 2 == 1))
    ensures |events| > 0 ==> FlagsAgree(Run(s, events))
    decreases |events|
  {
    if |events| > 0 {
      var next := Step(s, events[0]).state;
      assert next.open == !s.open && FlagsAgree(next);
      assert AllToggleClicks(events[1..]) by {
        forall i | 0 <= i < |events[1..]|
          ensures events[1..][i].ToggleClick?
        {
          assert events[1..][i] == events[i + 1];
        }
      }
      ToggleClicksAlternate(next, events[1..]);
      if |events| > 1 {
        RunPreservesFlags(next, events[1..]);
      }
    }
  }

  /** Only opening the drawer overwrites the saved focus. */
  lemma StepKeepsSavedFocus(s: State, e: Event)
    requires !(e.ToggleClick? && !s.open)
    ensures Step(s, e).state.previouslyFocused == s.previouslyFocused
  {
  }

  predicate NoToggleClicks(events: seq<Event>) {
    forall i :: 0 <= i < |events| ==> !events[i].ToggleClick?
  }

  /** Without a toggle click the saved focus survives any run of events. */
  lemma {:induction false} RunKeepsSavedFocus(s: State, events: seq<Event>)
    requires NoToggleClicks(events)
    ensures Run(s, events).previouslyFocused == s.previouslyFocused
    decreases |events|
  {
    if |events| > 0 {
      StepKeepsSavedFocus(s, events[0]);
      assert NoToggleClicks(events[1..]) by {
        forall i | 0 <= i < |events[1..]|
          ensures !events[1..][i].ToggleClick?
        {
          assert events[1..][i] == events[i + 1];
        }
      }
      RunKeepsSavedFocus(Step(s, events[0]).state, events[1..]);
    }
  }

  /** Opening the drawer with a toggle click, doing anything but clicking the toggle, then
      pressing Escape while still open returns focus to the element that had it before opening
      (the toggle when `document.activeElement` was null), with every flag back to closed. */
  lemma EscapeReturnsFocusAfterOpening(s: State, query: seq<Elem>, middle: seq<Event>, shiftKey: bool, query2: seq<Elem>)
    requires !s.open
    requires NoToggleClicks(middle)
    requires Run(Step(s, ToggleClick(query)).state, middle).open
    ensures var o := Step(Run(Step(s, ToggleClick(query)).state, middle), KeyDown("Escape", shiftKey, query2));
            o.preventDefault && !o.state.open && FlagsAgree(o.state) && o.state.active == Some(s.active.GetOr(s.toggle))
  {
    var openState := Step(s, ToggleClick(query)).state;
    assert openState.previouslyFocused == s.active;
    RunKeepsSavedFocus(openState, middle);
    RunKeepsToggle(openState, middle);
  }

  /** Two toggle clicks from closed: flags back to closed and focus returned to where it was
      before opening (or to the toggle when `document.activeElement` was null). */
  lemma ToggleTwiceReturnsFocus(s: State, q1: seq<Elem>, q2: seq<Elem>)
    requires !s.open
    ensures var r := Step(Step(s, ToggleClick(q1)).state, ToggleClick(q2)).state;
            !r.open && FlagsAgree(r) && r.bodyOverflow == "" && r.active == Some(s.active.GetOr(s.toggle))
  {
  }

  /** Closing is idempotent: a second close changes nothing. */
  lemma CloseIdempotent(s: State, returnFocus: bool, again: bool)
    ensures CloseMenu(CloseMenu(s, returnFocus), again) == CloseMenu(s, returnFocus)
  {
  }

  /** Shift+Tab on the first element then Tab on the last is a round trip of the focus trap:
      both keys prevent the default and the state comes back unchanged. */
  lemma TabWrapRoundTrip(s: State, q1: seq<Elem>, q2: seq<Elem>)
    requires s.open && |s.focusables| > 0 && s.active == Some(s.focusables[0])
    ensures Step(s, KeyDown("Tab", true, q1)).preventDefault
    ensures Step(Step(s, KeyDown("Tab", true, q1)).state, KeyDown("Tab", false, q2)).preventDefault
    ensures Step(Step(s, KeyDown("Tab", true, q1)).state, KeyDown("Tab", false, q2)).state == s
  {
  }

  /** While open with focus on a cached element, a wrapping Tab keeps focus on a cached element. */
  lemma TabKeepsFocusInside(s: State, shiftKey: bool, query: seq<Elem>)
    requires s.open && |s.focusables| > 0
    ensures var o := Step(s, KeyDown("Tab", shiftKey, query));
            o.state.open && o.state.focusables == s.focusables &&
            (o.preventDefault ==> o.state.active.Some? && o.state.active.value in s.focusables)
  {
  }

  /** A panel holding a close button, a link to `#services` and a `#` link that also carries
      `data-close`, opened while `document.activeElement` is null: opening focuses the `#services`
      link; Shift+Tab there does not wrap, since the close button comes first in the list; and
      clicking the `data-close` link prevents the default and returns focus to the toggle, since
      nothing lets a `data-close` link navigate. */
  lemma CloseLinkScenario(toggle: Elem)
    ensures var closeButton := Elem(1, true, true, true, false);
            var services := Elem(2, false, false, true, true);
            var closeLink := Elem(3, true, true, true, true);
            var panel := [closeButton, services, closeLink];
            var s0 := State(toggle, "false", true, false, "", None, [], None);
            var s1 := Step(s0, ToggleClick(panel)).state;
            var o2 := Step(s1, KeyDown("Tab", true, []));
            var o3 := Step(o2.state, MenuClick(closeLink));
            && s1.open && s1.ariaExpanded == "true" && !s1.hidden && s1.bodyOverflow == "hidden"
            && s1.active == Some(services)
            && o2.state.active == Some(services) && !o2.preventDefault
            && o3.preventDefault && !o3.state.open && o3.state.ariaExpanded == "false" && o3.state.hidden
            && o3.state.active == Some(toggle)
  {
  }
}
