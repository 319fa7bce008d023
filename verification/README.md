# Mobile navigation drawer and anchor scrolling, modelled in Dafny

This project models the two pieces of `scripts/main.js` that carry real behaviour:

- the mobile navigation drawer set up inside `initialiseSite`. It is an event-driven state machine over
  - the toggle's `aria-expanded` string;
  - the menu's `hidden` attribute and `open` class;
  - the body's `overflow` style;
  - the saved `previouslyFocused` element;
  - the cached `focusableElements` list;
  - the focused element (`document.activeElement`).

  Its events are the toggle click, the menu click, Escape, and Tab / Shift+Tab.
- the in-page anchor click handler `go`. It decides whether to take over a click on a `#` link, and computes where to scroll and how.

Modules:

- `Options` (`options.dfy`): `Option`, which stands for a JavaScript reference that may be null or undefined. Also `FirstIndex`, the first-match search behind `Array.prototype.find` and `Element.closest`.
- `Dom` (`dom.dfy`): `Elem`, an element reduced to its identity and the selector queries the handlers make. Also `FocusTarget`, the element focused on opening.
- `Drawer` (`drawer.dfy`): the state record, the events, and one pure function per closure of the source: `setAria`, `focusFirstElement`, `closeMenu`, `openMenu`, and the toggle, menu and keydown handlers. `Step(state, event)` returns the new state and whether `preventDefault` was called. `Run` delivers a sequence of events.
- `DrawerProps` (`drawer_props.dfy`): properties over event sequences. These cover flag agreement, toggle alternation, focus return after opening, the Tab wrap round trip, and one concrete scenario.
- `Scroll` (`scroll.dfy`): `go` as a pure function of the path from the click target to the root and the page facts it reads.

Inputs that the browser supplies become parameters:
- the result of `menu.querySelectorAll(...)` at the moment of an event (the `query` field of the events);
- the browser moving focus by itself (`FocusMoved`). This includes native Tab traversal that was not prevented, and focus given by a pointer;
- the header height, `window.scrollY`, the reduced-motion media query, and each target element's viewport top (`Page`). `Page.tops` maps an id to the viewport top of the element that the lookup at `scripts/main.js:34` returns for it.
- `document.activeElement`. A browser reports the body when nothing has focus; the model treats the body as an ordinary `Elem`. `None` stands for a null `activeElement`. So the fallback to the toggle in `(previouslyFocused || toggle)` is reached only when the saved element is undefined or null.

The model follows the code in these details:
- Nothing marks an "exit link". A click inside the panel, on or within a `data-close` element, calls `preventDefault`, and returns focus when the drawer is open (`CloseLinkScenario`). A `data-close` element outside `.mobile-drawer__panel` takes the outside-panel branch instead, so there is no `preventDefault`.
- Shift+Tab wraps only from the first cached element, even when that element carries `data-close`.
- The drawer sets `hidden`, not `aria-hidden`. The repository's tests exercise a different copy of the script that sets `aria-hidden`, so they do not describe this file.
- The menu-click handler calls `preventDefault` for a `data-close` target even when the drawer is closed, because that call comes before `closeMenu`'s open check.
- Opening computes a fresh focusable list, but the list is never cleared on close. While the drawer is open, Tab uses the cached list and queries again only when that list is empty.

## Model

| member | source | states |
|---|---|---|
| Options.FirstIndex | scripts/main.js:81 | The result is the position of the first element that satisfies the predicate, or None exactly when no element does. |
| Dom.FocusTarget | scripts/main.js:79-83 | On opening, focus goes to the first focusable element without its own `data-close`. If every element has `data-close`, it goes to the first element. If the list is empty, nothing is chosen. |
| Drawer.SetAria | scripts/main.js:72-77 | Afterwards `aria-expanded` is "true"/"false", `hidden` is present, the `open` class is set and overflow is "hidden", each exactly as `isOpen` requires. Closing clears overflow to "". Nothing else changes. |
| Drawer.FocusFirstElement | scripts/main.js:79-83 | The cached list becomes the fresh query. Focus moves to `FocusTarget` of that list, or stays put when the list is empty. Nothing else changes. |
| Drawer.CloseMenu | scripts/main.js:85-91 | A no-op when the drawer is not open. Otherwise every flag says closed. With `returnFocus`, focus goes to the saved element, or to the toggle when the saved element is undefined or null. Without it, focus is untouched. |
| Drawer.OpenMenu | scripts/main.js:93-97 | The drawer ends open with all flags agreeing. The previously focused element is saved and the focusable list is the fresh query. Focus is on an element of that list, or unchanged if the list is empty. |
| Drawer.OnToggleClick | scripts/main.js:99-105 | A toggle click flips open/closed. It closes with focus return when open and opens otherwise. |
| Drawer.OnMenuClick | scripts/main.js:107-125 | Dispatch, in priority order: outside the panel closes with focus return; inside `data-close` prevents the default and closes with focus return; inside a `#` link closes without focus return; anything else changes nothing. `preventDefault` is called exactly in the `data-close` case. |
| Drawer.OnTab | scripts/main.js:135-147 | Shift+Tab on the first element moves focus to the last, and Tab on the last moves it to the first. `preventDefault` is called exactly in those two cases. In every other case focus is unchanged. Only the cache and focus can change. |
| Drawer.OnKeyDown | scripts/main.js:127-148 | Does nothing while closed. Escape while open prevents the default and closes with focus return. Tab while open runs the focus trap and the drawer stays open. Other keys do nothing. |
| Drawer.Step | scripts/main.js:99-148 | Every event keeps the toggle. Flags that agree keep agreeing. Any event that opens or closes the drawer leaves the flags agreeing. A toggle click always flips the state and never prevents the default. Focus the browser moves by itself changes only the focused element. |
| DrawerProps.RunPreservesFlags | scripts/main.js:72-77 | Once the four flags agree, they agree after any sequence of events. |
| DrawerProps.RunKeepsToggle | scripts/main.js:65 | The toggle element is the same after any sequence of events. |
| DrawerProps.ToggleClicksAlternate | scripts/main.js:99-105 | After n toggle clicks the drawer's state is its starting state flipped n times, so clicks strictly alternate. After at least one click the flags agree. |
| DrawerProps.StepKeepsSavedFocus | scripts/main.js:93-97 | Only a toggle click that opens the drawer overwrites the saved focus. |
| DrawerProps.RunKeepsSavedFocus | scripts/main.js:94 | A sequence of events without toggle clicks keeps the saved focus. |
| DrawerProps.EscapeReturnsFocusAfterOpening | scripts/main.js:85-133 | Sequence: open with the toggle, then any events other than toggle clicks, then Escape while still open. Escape prevents the default and closes the drawer. Focus returns to the element that was `document.activeElement` before opening, or to the toggle if that was null. |
| DrawerProps.ToggleTwiceReturnsFocus | scripts/main.js:85-105 | Two toggle clicks from closed leave the drawer closed, with overflow cleared. Focus is back on the element that was `document.activeElement` before opening, or on the toggle if that was null. |
| DrawerProps.CloseIdempotent | scripts/main.js:85-91 | Closing twice is the same as closing once. |
| DrawerProps.TabWrapRoundTrip | scripts/main.js:135-147 | From focus on the first cached element, Shift+Tab then Tab both prevent the default and restore the exact state. |
| DrawerProps.TabKeepsFocusInside | scripts/main.js:135-147 | With a non-empty cached list, Tab keeps the drawer open and keeps the list. A wrap leaves focus on an element of the list. |
| DrawerProps.CloseLinkScenario | scripts/main.js:79-125 | Concrete run: opening focuses the first non-`data-close` link, and Shift+Tab from the `#services` link, which is not first in the list, does not wrap. Clicking a `#` link that carries `data-close` prevents the default and closes the drawer. Because `document.activeElement` was null at opening, focus returns to the toggle. |
| Scroll.ClosestFragment | scripts/main.js:27-30 | None exactly when no node on the path is an `a[href^="#"]`. Otherwise it is the `href` after `#` of the closest such anchor. |
| Scroll.ScrollToFragment | scripts/main.js:31-40 | It scrolls exactly when the fragment is present, non-empty and names an existing element. It then prevents the default and scrolls so that top + clearance = element top + scrollY, instantly (`auto`) exactly under reduced motion. |
| Scroll.Go | scripts/main.js:24-41 | `preventDefault` is called exactly when it scrolls. With no `#` anchor nothing happens. With the closest anchor's id: it scrolls exactly when the id is non-empty and exists, to `rectTop + scrollY - (header or 0) - 8`, with `auto` behaviour exactly under reduced motion. |
| Scroll.TargetLandsBelowHeader | scripts/main.js:38 | If the page scrolls exactly to the requested `top`, the target's viewport top is the header height (0 without a header) plus 8. |
| Scroll.ClosestAnchorDecides | scripts/main.js:27 | Only the closest `#` anchor matters. Nodes further out on the path never change the outcome. |
| Scroll.HeaderOffsetExample | tests/navigation.test.js:18-57 | A 100-pixel header, scrollY 0 and a target 500 pixels down give a smooth scroll to 392. |

## Left out

- `loadPartials` (scripts/main.js:1-22): network fetch and HTML splicing are I/O.
- The reveal-on-scroll IntersectionObserver (scripts/main.js:49-63): browser observer callbacks that only add a class.
- Listener wiring: the `DOMContentLoaded` hook, the `nav` / `a.button` click registration for `go`, the export, and the `toggle && menu` presence check (scripts/main.js:46-47, 65-67, 152-162). The model starts from a page where both elements exist.
- DOM queries (`querySelectorAll`, `closest`, `getElementById`): their results are inputs. `Elem` carries the `closest` answers as booleans, and `go` receives the target-to-root path.
- `CSS.escape` and the second lookup by `[id="..."]` (scripts/main.js:33-34): with `CSS.escape` present, both find the element with that id, so they are one map lookup in `Page.tops`.
- Scroll.ScrollToFragment: the fallback used when `CSS.escape` is missing (scripts/main.js:33) is not modelled. There, the raw id goes into a selector. An id containing `"` makes `querySelector` throw. An id with CSS escapes such as `\66oo` matches the element whose id is `foo`, so the source scrolls where the model, which looks up the id exactly, does not.
- Real browser focus: `focus()` is modelled as setting the focused element. Focus moved by the browser itself is the `FocusMoved` event. `preventScroll` is not modelled.
- The case where the toggle sits inside the menu, so that one click reaches both handlers: the markup is not part of this model.
- The case where `#mobileNav` is a `nav` or sits inside one: `go` is registered on every `nav` (scripts/main.js:46), so it also handles a click on a `#` link in the menu and calls `preventDefault` when the target exists. `Step` reports only the menu handler's own `preventDefault`, not the combined result of both handlers.
- Scroll.TargetLandsBelowHeader: `scrollTo` clamps the requested position to the page's scrollable range, so near the top or bottom of the page the target does not end up at the header height plus 8. The lemma is about the requested position only.
- Scroll.Go: `getBoundingClientRect().top` and `scrollY` are integers here, not floating-point numbers. `scrollTo` is recorded as a request, not performed.

