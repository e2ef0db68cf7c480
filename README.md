# Dropdown, toggle switch and theme state of the notes web app

This project models the three pieces of state logic in the React front end
of a small notes application, and proves properties of them in Dafny:

- **`Dropdown`** (`dropdown.dfy`, module `DropdownComponent`). The menu's
  `open`/`focused` state machine responds to keyboard navigation
  (ArrowDown, ArrowUp, Home, End, Escape, Enter/Space/Spacebar), the trigger
  button, clicks and mouse-enter on items, and pointer presses outside the
  component. Selecting an item calls either the item's own `onClick` or
  `onSelect(item.value ?? item)`.
- **`ToggleSwitch`** (`toggle_switch.dfy`, module `ToggleSwitchComponent`).
  The switch is controlled or uncontrolled, keeps an `internalChecked` state,
  has a `disabled` guard, calls `onChange(!effectiveChecked)`, filters keys
  for Space/Enter, and derives `aria-checked` and `tabIndex`.
- **`ThemeProvider`** (`theme_context.dfy`, module `ThemeContext`). It holds
  the `theme` string and the `toggleTheme`/`setTheme` actions. Two effects
  copy the theme onto the root element's `data-theme` attribute and the
  body's `theme-dark`/`theme-light` classes. The module also gives the
  context's default value.

Each module has the same layout:

- a state datatype;
- one pure function per handler, which is the specification;
- lemmas for the properties of single handlers;
- a `Run` function over a sequence of user interactions, with inductive
  lemmas about whole runs;
- a class whose fields are the React state and whose methods are the
  handlers, written step by step as in the source.

Each method's postcondition ties the new fields to the handler function
applied to the old fields. Callbacks are caller-supplied and opaque. A ghost
field (`emitted` in `Dropdown`, `changes` in `ToggleSwitch`) logs them: each
entry records which callback was invoked and with what argument.

Modelling decisions:

- React's render/closure cycle is read sequentially: each handler sees the
  current state. The one exception is `onChange`, whose value is computed
  from `effectiveChecked` as it stood before the toggle. `ToggleSwitch.js`
  computes that constant during the render, before `setInternalChecked`
  takes effect.
- The `items` and `onSelect` props of the dropdown, and all props of the
  switch, are fixed when the component is constructed.
- Menu items exist in the document only while the menu is open
  (`Dropdown.js:125`). `Dispatch` therefore delivers a click or mouse-enter
  on item `i` only while the menu is open and `i` is an index of `items`.
  Otherwise the interaction reaches no handler.
- The click-outside `handler` is registered only while the menu is open.
  It is modelled as a document pointer press (mousedown or touchstart) that
  says whether its target lies inside the component's root.
- An item's `value` is `None` when it is null or undefined. So `??` falls
  back to the whole item only then; an empty-string value is still passed.
- `checked` and `defaultChecked` are JavaScript values
  (`Undefined | Null | Bool`). This keeps `checked !== undefined`,
  `defaultChecked || false` and `!!effectiveChecked` exact; a null `checked`
  is controlled and displays as unchecked.
- Each `useEffect` runs right after the handler that changed the theme.
  The document's root attributes and body classes are fields of
  `ThemeProvider`. The effects only add or overwrite their own attribute and
  classes, and leave every other entry alone.

## Model

| member | source | states |
|---|---|---|
| `DropdownComponent.SelectionEvents` | react_frontend/src/components/Dropdown.js:77-81 | selecting an item invokes at most one callback: the item's own `onClick` exactly when it has one, otherwise `onSelect` exactly when given, otherwise nothing |
| `DropdownComponent.SelectionIsValueOrItem` | react_frontend/src/components/Dropdown.js:80 | `onSelect` receives the item's value when it is neither null nor undefined, and the whole item otherwise |
| `DropdownComponent.KeyWhileClosed` | react_frontend/src/components/Dropdown.js:54-60 | while closed, ArrowDown/Enter/" "/"Spacebar" opens the menu with `focused = 0` and invokes nothing; every other key changes nothing |
| `DropdownComponent.ArrowDownClamps` | react_frontend/src/components/Dropdown.js:61-63 | while open, ArrowDown keeps the menu open, never moves `focused` past `items.length - 1`, moves it by at most one, and by exactly one when there is room |
| `DropdownComponent.ArrowUpClamps` | react_frontend/src/components/Dropdown.js:64-66 | while open, ArrowUp never moves `focused` below 0, moves it by at most one, and by exactly one when it is at least 1 |
| `DropdownComponent.HomeEndEscape` | react_frontend/src/components/Dropdown.js:67-73 | while open, Home focuses 0, End focuses `items.length - 1`, Escape closes with `focused = -1`; none invokes a callback |
| `DropdownComponent.SelectKeyWhileOpen` | react_frontend/src/components/Dropdown.js:74-85 | while open, Enter/Space/Spacebar with `focused` in range invokes that item's callback (exactly one when `onClick` or `onSelect` exists) and closes with `focused = -1`; out of range, it changes nothing and invokes nothing |
| `DropdownComponent.OtherKeyWhileOpen` | react_frontend/src/components/Dropdown.js:61-86 | while open, a key outside the handled set changes nothing and invokes nothing |
| `DropdownComponent.ItemClickAndHover` | react_frontend/src/components/Dropdown.js:96-104 | an item click invokes that item's callback, always ends closed with `focused = -1`, and acts like Enter with that item focused; mouse-enter on item i sets `focused = i` only |
| `DropdownComponent.ButtonClickFlips` | react_frontend/src/components/Dropdown.js:91-94 | the trigger button negates `open`, sets `focused = 0` and invokes nothing |
| `DropdownComponent.OutsideClickCloses` | react_frontend/src/components/Dropdown.js:31-49 | a pointer press outside an open menu closes it with `focused = -1`; a press inside, or any press while closed, changes nothing |
| `DropdownComponent.EmptyMenuArrowUp` | react_frontend/src/components/Dropdown.js:64-66 | with no items, ArrowUp in an open menu sets `focused = 0` although there is no item 0; a following Enter then invokes nothing and leaves the menu open |
| `DropdownComponent.OpenMenuHighlightsOneItem` | react_frontend/src/components/Dropdown.js:134-137 | an open non-empty menu in a reachable state is expanded and highlights exactly one existing item |
| `DropdownComponent.SelectionIsLegitimate` | react_frontend/src/components/Dropdown.js:96-101 | every callback that selecting an item invokes is one the menu's items can cause |
| `DropdownComponent.DispatchPreservesInvariant` | react_frontend/src/components/Dropdown.js:54-104 | every handler keeps "open ⇒ `0 <= focused < items.length`" for a non-empty menu (and `focused` in {-1, 0} for an empty one), invokes at most one callback, and only ones the items can cause |
| `DropdownComponent.RunPreservesInvariant` | react_frontend/src/components/Dropdown.js:52-104 | the invariant holds after every sequence of interactions |
| `DropdownComponent.RunEmitsLegitimateEvents` | react_frontend/src/components/Dropdown.js:74-104 | a sequence of n interactions invokes at most n callbacks, each an `onClick` of an item that has one, or `onSelect` of an item's selection when `onSelect` is given |
| `DropdownComponent.RunClosedAfterSelection` | react_frontend/src/components/Dropdown.js:82-83 | after an interaction that invoked a callback, the menu is closed with `focused = -1` |
| `DropdownComponent.Dropdown.constructor` | react_frontend/src/components/Dropdown.js:26-27 | the menu starts closed with `focused = -1` and an empty callback log |
| `DropdownComponent.Dropdown.HandleKeyDown` | react_frontend/src/components/Dropdown.js:52-89 | the new `open`/`focused` are those of the key-down specification, the log grows by its callbacks, and the invariant is kept |
| `DropdownComponent.Dropdown.HandleButtonClick` | react_frontend/src/components/Dropdown.js:91-94 | the new state is the button-click specification's; no callback; invariant kept |
| `DropdownComponent.Dropdown.HandleItemClick` | react_frontend/src/components/Dropdown.js:96-104 | ends closed with `focused = -1`; the log grows by the clicked item's callback; invariant kept |
| `DropdownComponent.Dropdown.HandleItemMouseEnter` | react_frontend/src/components/Dropdown.js:139 | `focused` becomes the hovered index; `open` and the log are unchanged; invariant kept |
| `DropdownComponent.Dropdown.HandleDocumentPointerDown` | react_frontend/src/components/Dropdown.js:31-49 | an outside press on an open menu closes it with `focused = -1`; otherwise nothing changes |
| `ToggleSwitchComponent.EffectiveCheckedSource` | react_frontend/src/components/ToggleSwitch.js:37-42 | controlled exactly when `checked` is not undefined; the effective state is `checked` when controlled and `internalChecked` otherwise |
| `ToggleSwitchComponent.InitialInternalFromDefault` | react_frontend/src/components/ToggleSwitch.js:38-40 | `internalChecked` starts true exactly when `defaultChecked` is true (the source writes `defaultChecked` or false) |
| `ToggleSwitchComponent.DisabledToggleIsInert` | react_frontend/src/components/ToggleSwitch.js:46-49 | a disabled toggle changes nothing and calls no `onChange` |
| `ToggleSwitchComponent.EnabledToggleState` | react_frontend/src/components/ToggleSwitch.js:50-52 | an enabled toggle negates `internalChecked` when uncontrolled and leaves it alone when controlled |
| `ToggleSwitchComponent.EnabledToggleNotifies` | react_frontend/src/components/ToggleSwitch.js:53-55 | an enabled toggle calls `onChange` exactly once when given, with the negation of the pre-toggle effective state, and not at all otherwise |
| `ToggleSwitchComponent.DoubleToggleRestores` | react_frontend/src/components/ToggleSwitch.js:51 | two enabled uncontrolled toggles restore `internalChecked` |
| `ToggleSwitchComponent.KeyDownFilter` | react_frontend/src/components/ToggleSwitch.js:59-68 | " ", "Spacebar" and "Enter" act exactly like a toggle; every other key does nothing |
| `ToggleSwitchComponent.DerivedAttributes` | react_frontend/src/components/ToggleSwitch.js:88-89 | `aria-checked` is the effective state coerced to a boolean (null shows unchecked); `tabIndex` is -1 exactly when disabled and 0 otherwise |
| `ToggleSwitchComponent.RunDisabledIsInert` | react_frontend/src/components/ToggleSwitch.js:45-68 | a disabled switch ignores every sequence of clicks and keys |
| `ToggleSwitchComponent.RunControlledKeepsInternal` | react_frontend/src/components/ToggleSwitch.js:50-55 | in controlled mode no interaction changes `internalChecked`, and every `onChange` reports `!checked` |
| `ToggleSwitchComponent.RunUncontrolledParity` | react_frontend/src/components/ToggleSwitch.js:45-68 | enabled and uncontrolled, the final state is the start state after an even number of toggles and its negation after an odd number; `onChange` is called once per toggle when given |
| `ToggleSwitchComponent.RunUncontrolledReportsState` | react_frontend/src/components/ToggleSwitch.js:50-55 | enabled and uncontrolled, the last value passed to `onChange` is the state the switch is left in |
| `ToggleSwitchComponent.ToggleSwitch.constructor` | react_frontend/src/components/ToggleSwitch.js:27-40 | the switch starts with `internalChecked` true exactly when `defaultChecked` is true and an empty `onChange` log |
| `ToggleSwitchComponent.ToggleSwitch.HandleToggle` | react_frontend/src/components/ToggleSwitch.js:45-56 | the new `internalChecked` and the `onChange` log are those of the toggle specification |
| `ToggleSwitchComponent.ToggleSwitch.HandleKeyDown` | react_frontend/src/components/ToggleSwitch.js:59-68 | the new `internalChecked` and the log are those of the key-down specification |
| `ThemeContext.DefaultContext` | react_frontend/src/ThemeContext.js:4-8 | the default context value has theme "light" |
| `ThemeContext.Toggled` | react_frontend/src/ThemeContext.js:21-23 | toggling always yields "light" or "dark", yields "dark" exactly from "light", and always changes the theme |
| `ThemeContext.ToggleMapping` | react_frontend/src/ThemeContext.js:22 | "light" toggles to "dark"; every other string, including ones set by `setTheme`, toggles to "light" |
| `ThemeContext.ToggleTwiceRestores` | react_frontend/src/ThemeContext.js:22 | from "light" or "dark", two toggles give the original theme |
| `ThemeContext.ToggleTwiceNormalizesUnknown` | react_frontend/src/ThemeContext.js:22 | from any other string, two toggles give "dark", not the original |
| `ThemeContext.SetDataTheme` | react_frontend/src/ThemeContext.js:26-28 | the root's `data-theme` becomes the theme; the other attributes are unchanged |
| `ThemeContext.SyncBodyClasses` | react_frontend/src/ThemeContext.js:31-34 | the body has `theme-dark` iff the theme is "dark" and `theme-light` iff it is "light", never both; the other classes are unchanged |
| `ThemeContext.EffectsSynchronize` | react_frontend/src/ThemeContext.js:26-34 | after the effects, the document reflects the theme, and running them again changes nothing |
| `ThemeContext.RunTogglesParity` | react_frontend/src/ThemeContext.js:21-23 | from a known theme, a run of n toggles gives the theme back when n is even and its opposite when n is odd |
| `ThemeContext.RunLastActionDecides` | react_frontend/src/ThemeContext.js:17-23 | after any sequence of actions, a final `setTheme(x)` leaves exactly `x` and a final toggle leaves "light" or "dark" |
| `ThemeContext.ThemeProvider.constructor` | react_frontend/src/ThemeContext.js:16-17 | the provider starts with the `initial` theme and the document reflects it |
| `ThemeContext.ThemeProvider.WithDefault` | react_frontend/src/ThemeContext.js:16 | without `initial`, the provider starts with "light" |
| `ThemeContext.ThemeProvider.ApplyEffects` | react_frontend/src/ThemeContext.js:26-34 | the two effects bring the document in sync with the current theme, touching nothing else |
| `ThemeContext.ThemeProvider.ToggleTheme` | react_frontend/src/ThemeContext.js:21-23 | the theme becomes the toggled one, is "light" or "dark", and the document follows |
| `ThemeContext.ThemeProvider.SetTheme` | react_frontend/src/ThemeContext.js:17 | the theme becomes exactly the given string, with no normalisation, and the document follows |

## Left out

- Rendering is not modelled: JSX markup, CSS imports, inline styles and
  class-name templating (`Dropdown.js:106-148`, `ToggleSwitch.js:72-158`).
  Only `aria-expanded`, the item highlight, `aria-checked` and `tabIndex`
  are kept, as predicates of the state.
- Real DOM calls are not modelled. `addEventListener`/`removeEventListener`,
  `rootRef.current.contains`, `setAttribute` and `classList.toggle` are
  replaced by their logical outcome: an inside/outside pointer press, a map
  of root attributes and a set of body classes. The case of a `rootRef`
  that is still null is not modelled.
- `e.preventDefault()`, the focus/blur box-shadow handlers and the hidden
  checkbox's form plumbing are not modelled. The checkbox's `onChange` calls
  the same `handleToggle` that is modelled.
- React hook timing, stale closures, batched re-renders and `useCallback`
  memoisation are not modelled; the model is sequential.
- Props that change between renders are not modelled. In particular, a
  parent that feeds a new `checked` value back after `onChange` is not.
- PropTypes validation is not modelled: it only produces development-time
  warnings.
- The default context's `setTheme` and `toggleTheme` do nothing, and the
  model has nothing to record for them. `DefaultContext` gives only its
  theme.
- The bodies of `onClick`, `onSelect` and `onChange` are caller-supplied and
  are not modelled: only the fact and the argument of each call are logged.
  Item values are modelled as strings.
- `Button.js`, `Sidebar.js`, `Navbar.js` and `App.js` are static markup and
  prop wiring, and are not part of this model.
