/** The open/focus state machine of the `Dropdown` menu component.

    The React state is the pair (`open`, `focused`); the `items` and
    `onSelect` props are fixed for the life of the component. Callbacks are
    opaque: what the model records is which callback was invoked and with
    what argument. */
module DropdownComponent {

  datatype Option<T> = None | Some(value: T)

  /** One entry of the `items` prop. `hasOnClick` says whether the entry has
      its own `onClick` callback; `value` is `None` when the entry's `value`
      is null or undefined. */
  datatype Item = Item(labelText: string, hasOnClick: bool, value: Option<string>)

  /** The argument handed to `onSelect`: `item.value ?? item`. */
  datatype Selection = SelectedValue(value: string) | SelectedItem(item: Item)

  /** An observable callback invocation. */
  datatype Event =
    | ItemOnClick(index: nat)          // the `onClick` of `items[index]` was called
    | OnSelect(selection: Selection)   // `onSelect(selection)` was called

  datatype Props = Props(items: seq<Item>, hasOnSelect: bool)

  datatype MenuState = MenuState(open: bool, focused: int)

  /** The new state after one handler, and the callbacks it invoked. */
  datatype Transition = Transition(state: MenuState, emitted: seq<Event>)

  /** `useState(false)` and `useState(-1)`. */
  const Initial := MenuState(false, -1)

  /** The state every closing path writes: `setOpen(false); setFocused(-1)`. */
  const Closed := MenuState(false, -1)

  function Min(a: int, b: int): int { if a <= b then a else b }

  function Max(a: int, b: int): int { if a >= b then a else b }

  /** Keys that open a closed menu. */
  predicate OpensMenu(key: string) {
    key == "ArrowDown" || key == "Enter" || key == " " || key == "Spacebar"
  }

  /** Keys that select the focused item of an open menu. */
  predicate SelectsItem(key: string) {
    key == "Enter" || key == " " || key == "Spacebar"
  }

  /** `item.value ?? item`: only null or undefined fall back to the item. */
  function SelectionOf(item: Item): Selection {
    match item.value
    case Some(v) => SelectedValue(v)
    case None => SelectedItem(item)
  }

  /** The callbacks that selecting `items[i]` invokes: the item's own
      `onClick` when it has one, otherwise `onSelect` when it is given. */
  function SelectionEvents(p: Props, i: nat): (r: seq<Event>)
    requires i < |p.items|
    ensures |r| <= 1
    ensures r == [ItemOnClick(i)] <==> p.items[i].hasOnClick
    ensures r == [OnSelect(SelectionOf(p.items[i]))] <==> !p.items[i].hasOnClick && p.hasOnSelect
    ensures r == [] <==> !p.items[i].hasOnClick && !p.hasOnSelect
  {
    if p.items[i].hasOnClick then [ItemOnClick(i)]
    else if p.hasOnSelect then [OnSelect(SelectionOf(p.items[i]))]
    else []
  }

  // ---------------------------------------------------------------------
  // The handlers, one function each.

  /** `handleKeyDown`. */
  function KeyDown(p: Props, s: MenuState, key: string): Transition {
    if !s.open && OpensMenu(key) then Transition(MenuState(true, 0), [])
    else if !s.open then Transition(s, [])
    else if key == "ArrowDown" then Transition(s.(focused := Min(|p.items| - 1, s.focused + 1)), [])
    else if key == "ArrowUp" then Transition(s.(focused := Max(0, s.focused - 1)), [])
    else if key == "Home" then Transition(s.(focused := 0), [])
    else if key == "End" then Transition(s.(focused := |p.items| - 1), [])
    else if key == "Escape" then Transition(Closed, [])
    else if SelectsItem(key) then
      if 0 <= s.focused < |p.items| then Transition(Closed, SelectionEvents(p, s.focused))
      else Transition(s, [])
    else Transition(s, [])
  }

  /** `handleButtonClick`. */
  function ButtonClick(s: MenuState): Transition {
    Transition(MenuState(!s.open, 0), [])
  }

  /** `handleItemClick(items[i], i)`. */
  function ItemClick(p: Props, i: nat): Transition
    requires i < |p.items|
  {
    Transition(Closed, SelectionEvents(p, i))
  }

  /** The `onMouseEnter` of the i-th rendered item. */
  function ItemMouseEnter(s: MenuState, i: nat): Transition {
    Transition(s.(focused := i), [])
  }

  /** A mousedown or touchstart anywhere in the document. The click-outside
      `handler` is registered only while the menu is open, and closes it
      only when the target lies outside the component's root. */
  function DocumentPointerDown(s: MenuState, insideRoot: bool): Transition {
    if s.open && !insideRoot then Transition(Closed, []) else Transition(s, [])
  }

  // ---------------------------------------------------------------------
  // Sequences of user interactions.

  datatype Input =
    | KeyPress(key: string)
    | ButtonPress
    | ItemPress(index: int)
    | ItemHover(index: int)
    | PointerDown(insideRoot: bool)

  /** The menu items exist in the document only while the menu is open. */
  predicate Rendered(p: Props, s: MenuState, i: int) {
    s.open && 0 <= i < |p.items|
  }

  /** One interaction delivered to the component; an interaction with an
      item that is not rendered reaches no handler. */
  function Dispatch(p: Props, s: MenuState, input: Input): Transition {
    match input
    case KeyPress(key) => KeyDown(p, s, key)
    case ButtonPress => ButtonClick(s)
    case ItemPress(i) => if Rendered(p, s, i) then ItemClick(p, i) else Transition(s, [])
    case ItemHover(i) => if Rendered(p, s, i) then ItemMouseEnter(s, i) else Transition(s, [])
    case PointerDown(inside) => DocumentPointerDown(s, inside)
  }

  /** The final state and all callbacks invoked by a sequence of interactions. */
  function Run(p: Props, s: MenuState, inputs: seq<Input>): Transition
    decreases |inputs|
  {
    if inputs == [] then Transition(s, [])
    else
      var first := Dispatch(p, s, inputs[0]);
      var rest := Run(p, first.state, inputs[1..]);
      Transition(rest.state, first.emitted + rest.emitted)
  }

  /** An open non-empty menu always focuses an existing item; an open empty
      menu focuses -1 or 0. */
  predicate MenuInvariant(p: Props, s: MenuState) {
    s.open ==>
      if |p.items| > 0 then 0 <= s.focused < |p.items| else -1 <= s.focused <= 0
  }

  /** An event that some item of the menu can legitimately cause. */
  predicate Legitimate(p: Props, e: Event) {
    match e
    case ItemOnClick(i) => i < |p.items| && p.items[i].hasOnClick
    case OnSelect(sel) =>
      p.hasOnSelect &&
      exists j :: 0 <= j < |p.items| && !p.items[j].hasOnClick && sel == SelectionOf(p.items[j])
  }

  /** `aria-expanded` of the trigger button. */
  predicate AriaExpanded(s: MenuState) {
    s.open
  }

  /** Whether item `i` carries the `focused` class and `aria-selected`. */
  predicate Highlighted(s: MenuState, i: int) {
    s.focused == i
  }

  // ---------------------------------------------------------------------
  // Properties of single handlers.

  /** Closed: the opening keys open the menu on the first item and select
      nothing; every other key changes nothing. */
  lemma KeyWhileClosed(p: Props, s: MenuState, key: string)
    requires !s.open
    ensures OpensMenu(key) ==> KeyDown(p, s, key) == Transition(MenuState(true, 0), [])
    ensures !OpensMenu(key) ==> KeyDown(p, s, key) == Transition(s, [])
  {
  }

  /** Open: ArrowDown moves the focus down by one, but never past the last item. */
  lemma ArrowDownClamps(p: Props, s: MenuState)
    requires s.open
    ensures var t := KeyDown(p, s, "ArrowDown");
      && t.emitted == [] && t.state.open
      && t.state.focused <= |p.items| - 1
      && t.state.focused <= s.focused + 1
      && (s.focused + 1 <= |p.items| - 1 ==> t.state.focused == s.focused + 1)
      && (s.focused + 1 > |p.items| - 1 ==> t.state.focused == |p.items| - 1)
  {
  }

  /** Open: ArrowUp moves the focus up by one, but never below 0 -- even for
      an empty menu, where 0 is not an item. */
  lemma ArrowUpClamps(p: Props, s: MenuState)
    requires s.open
    ensures var t := KeyDown(p, s, "ArrowUp");
      && t.emitted == [] && t.state.open
      && t.state.focused >= 0
      && t.state.focused >= s.focused - 1
      && (s.focused >= 1 ==> t.state.focused == s.focused - 1)
      && (s.focused < 1 ==> t.state.focused == 0)
  {
  }

  /** Open: Home focuses the first item, End the last, Escape closes. */
  lemma HomeEndEscape(p: Props, s: MenuState)
    requires s.open
    ensures KeyDown(p, s, "Home") == Transition(MenuState(true, 0), [])
    ensures KeyDown(p, s, "End") == Transition(MenuState(true, |p.items| - 1), [])
    ensures KeyDown(p, s, "Escape") == Transition(MenuState(false, -1), [])
  {
  }

  /** Open: Enter, Space or Spacebar on a focused item invokes that item's
      callback and closes the menu; with no item focused it does nothing. */
  lemma SelectKeyWhileOpen(p: Props, s: MenuState, key: string)
    requires s.open && SelectsItem(key)
    ensures var t := KeyDown(p, s, key);
      if 0 <= s.focused < |p.items| then
        && t.state == MenuState(false, -1)
        && t.emitted == SelectionEvents(p, s.focused)
        && (|t.emitted| == 1 <==> p.items[s.focused].hasOnClick || p.hasOnSelect)
      else
        t == Transition(s, [])
  {
  }

  /** Open: any other key changes nothing. */
  lemma OtherKeyWhileOpen(p: Props, s: MenuState, key: string)
    requires s.open
    requires key !in {"ArrowDown", "ArrowUp", "Home", "End", "Escape", "Enter", " ", "Spacebar"}
    ensures KeyDown(p, s, key) == Transition(s, [])
  {
  }

  /** `onSelect` receives the item's value whenever it is neither null nor
      undefined (an empty string included), and the whole item otherwise. */
  lemma SelectionIsValueOrItem(item: Item)
    ensures item.value.Some? ==> SelectionOf(item) == SelectedValue(item.value.value)
    ensures item.value.None? ==> SelectionOf(item) == SelectedItem(item)
  {
  }

  /** An item click invokes the same single callback as keyboard selection
      and always closes the menu; hovering an item focuses it. */
  lemma ItemClickAndHover(p: Props, s: MenuState, i: nat)
    requires i < |p.items|
    ensures ItemClick(p, i).state == MenuState(false, -1)
    ensures ItemClick(p, i).emitted == SelectionEvents(p, i)
    ensures s.open ==> ItemClick(p, i) == KeyDown(p, s.(focused := i), "Enter")
    ensures ItemMouseEnter(s, i) == Transition(MenuState(s.open, i), [])
  {
  }

  /** The trigger button flips `open`, focuses the first item and invokes
      nothing. */
  lemma ButtonClickFlips(s: MenuState)
    ensures ButtonClick(s).state.open == !s.open
    ensures ButtonClick(s).state.focused == 0
    ensures ButtonClick(s).emitted == []
  {
  }

  /** A pointer press outside an open menu closes it; a press inside the
      component, or any press while closed, does nothing. */
  lemma OutsideClickCloses(s: MenuState, insideRoot: bool)
    ensures s.open && !insideRoot ==> DocumentPointerDown(s, insideRoot) == Transition(MenuState(false, -1), [])
    ensures !s.open || insideRoot ==> DocumentPointerDown(s, insideRoot) == Transition(s, [])
  {
  }

  /** The empty-menu edge case: ArrowUp sets `focused` to 0 although there is
      no item 0, and a following Enter then selects nothing and stays open. */
  lemma EmptyMenuArrowUp(p: Props, s: MenuState)
    requires p.items == [] && s.open && MenuInvariant(p, s)
    ensures var up := KeyDown(p, s, "ArrowUp").state;
      && up == MenuState(true, 0)
      && !FocusesAnItem(p, up)
      && KeyDown(p, up, "Enter") == Transition(up, [])
  {
  }

  /** Whether the focus names an existing item of an open menu. */
  predicate FocusesAnItem(p: Props, s: MenuState) {
    s.open && 0 <= s.focused < |p.items|
  }

  /** An open non-empty menu is expanded and highlights exactly one of its items. */
  lemma OpenMenuHighlightsOneItem(p: Props, s: MenuState)
    requires MenuInvariant(p, s) && s.open && |p.items| > 0
    ensures AriaExpanded(s)
    ensures exists i :: 0 <= i < |p.items| && Highlighted(s, i)
    ensures forall i, j :: Highlighted(s, i) && Highlighted(s, j) ==> i == j
  {
    assert Highlighted(s, s.focused);
  }

  /** Every handler keeps a non-empty open menu focused on an existing item,
      and only invokes callbacks that the menu's items can cause. */
  lemma DispatchPreservesInvariant(p: Props, s: MenuState, input: Input)
    requires MenuInvariant(p, s)
    ensures MenuInvariant(p, Dispatch(p, s, input).state)
    ensures |Dispatch(p, s, input).emitted| <= 1
    ensures forall k :: 0 <= k < |Dispatch(p, s, input).emitted| ==> Legitimate(p, Dispatch(p, s, input).emitted[k])
  {
    match input
    case KeyPress(key) =>
      if s.open && SelectsItem(key) && 0 <= s.focused < |p.items| {
        SelectionIsLegitimate(p, s.focused);
      }
    case ItemPress(i) =>
      if Rendered(p, s, i) {
        SelectionIsLegitimate(p, i);
      }
    case _ =>
  }

  /** Selecting an item only invokes callbacks that item can cause. */
  lemma SelectionIsLegitimate(p: Props, i: nat)
    requires i < |p.items|
    ensures forall k :: 0 <= k < |SelectionEvents(p, i)| ==> Legitimate(p, SelectionEvents(p, i)[k])
  {
    if !p.items[i].hasOnClick && p.hasOnSelect {
      assert SelectionEvents(p, i)[0] == OnSelect(SelectionOf(p.items[i]));
    }
  }

  // ---------------------------------------------------------------------
  // Properties of whole interaction sequences.

  /** The invariant holds after any sequence of interactions. */
  lemma {:induction false} RunPreservesInvariant(p: Props, s: MenuState, inputs: seq<Input>)
    requires MenuInvariant(p, s)
    ensures MenuInvariant(p, Run(p, s, inputs).state)
    decreases |inputs|
  {
    if inputs != [] {
      DispatchPreservesInvariant(p, s, inputs[0]);
      RunPreservesInvariant(p, Dispatch(p, s, inputs[0]).state, inputs[1..]);
    }
  }

  /** Each interaction invokes at most one callback, and every callback
      invoked is one an item of the menu can cause. */
  lemma {:induction false} RunEmitsLegitimateEvents(p: Props, s: MenuState, inputs: seq<Input>)
    requires MenuInvariant(p, s)
    ensures |Run(p, s, inputs).emitted| <= |inputs|
    ensures forall k :: 0 <= k < |Run(p, s, inputs).emitted| ==> Legitimate(p, Run(p, s, inputs).emitted[k])
    decreases |inputs|
  {
    if inputs != [] {
      var first := Dispatch(p, s, inputs[0]);
      DispatchPreservesInvariant(p, s, inputs[0]);
      RunEmitsLegitimateEvents(p, first.state, inputs[1..]);
      var rest := Run(p, first.state, inputs[1..]);
      assert Run(p, s, inputs).emitted == first.emitted + rest.emitted;
      forall k | 0 <= k < |first.emitted + rest.emitted|
        ensures Legitimate(p, (first.emitted + rest.emitted)[k])
      {
        if k < |first.emitted| {
          assert (first.emitted + rest.emitted)[k] == first.emitted[k];
        } else {
          assert (first.emitted + rest.emitted)[k] == rest.emitted[k - |first.emitted|];
        }
      }
    }
  }

  /** The menu is never open after an interaction that invoked a callback. */
  lemma {:induction false} RunClosedAfterSelection(p: Props, s: MenuState, inputs: seq<Input>)
    requires inputs != []
    requires Dispatch(p, Run(p, s, inputs[..|inputs| - 1]).state, inputs[|inputs| - 1]).emitted != []
    ensures !Run(p, s, inputs).state.open
    ensures Run(p, s, inputs).state.focused == -1
    decreases |inputs|
  {
    RunSnoc(p, s, inputs[..|inputs| - 1], inputs[|inputs| - 1]);
    assert inputs[..|inputs| - 1] + [inputs[|inputs| - 1]] == inputs;
  }

  /** Running one more interaction extends the run by that interaction. */
  lemma {:induction false} RunSnoc(p: Props, s: MenuState, inputs: seq<Input>, last: Input)
    ensures var t := Run(p, s, inputs);
      var u := Dispatch(p, t.state, last);
      Run(p, s, inputs + [last]) == Transition(u.state, t.emitted + u.emitted)
    decreases |inputs|
  {
    if inputs == [] {
      assert [] + [last] == [last];
      assert [last][1..] == [];
    } else {
      assert (inputs + [last])[0] == inputs[0];
      assert (inputs + [last])[1..] == inputs[1..] + [last];
      RunSnoc(p, Dispatch(p, s, inputs[0]).state, inputs[1..], last);
    }
  }

  // ---------------------------------------------------------------------
  // The component, with the React state as fields.

  class Dropdown {
    const props: Props
    var open: bool
    var focused: int
    /** Every callback invoked so far, oldest first. */
    ghost var emitted: seq<Event>

    function State(): MenuState
      reads this
    {
      MenuState(open, focused)
    }

    ghost predicate Valid()
      reads this
    {
      MenuInvariant(props, State())
    }

    constructor (items: seq<Item>, hasOnSelect: bool)
      ensures props == Props(items, hasOnSelect)
      ensures State() == Initial && emitted == []
      ensures Valid()
    {
      props := Props(items, hasOnSelect);
      open := false;
      focused := -1;
      emitted := [];
    }

    method HandleKeyDown(key: string)
      requires Valid()
      modifies this
      ensures Valid()
      ensures State() == KeyDown(props, old(State()), key).state
      ensures emitted == old(emitted) + KeyDown(props, old(State()), key).emitted
    {
      if !open && OpensMenu(key) {
        open := true;
        focused := 0;
        return;
      }
      if !open {
        return;
      }
      if key == "ArrowDown" {
        focused := Min(|props.items| - 1, focused + 1);
      } else if key == "ArrowUp" {
        focused := Max(0, focused - 1);
      } else if key == "Home" {
        focused := 0;
      } else if key == "End" {
        focused := |props.items| - 1;
      } else if key == "Escape" {
        open := false;
        focused := -1;
      } else if SelectsItem(key) {
        if 0 <= focused < |props.items| {
          emitted := emitted + SelectionEvents(props, focused);
          open := false;
          focused := -1;
        }
      }
    }

    method HandleButtonClick()
      requires Valid()
      modifies this
      ensures Valid()
      ensures State() == ButtonClick(old(State())).state
      ensures emitted == old(emitted)
    {
      open := !open;
      focused := 0;
    }

    method HandleItemClick(index: nat)
      requires Valid()
      requires index < |props.items|
      modifies this
      ensures Valid()
      ensures State() == ItemClick(props, index).state
      ensures emitted == old(emitted) + ItemClick(props, index).emitted
    {
      emitted := emitted + SelectionEvents(props, index);
      open := false;
      focused := -1;
    }

    method HandleItemMouseEnter(index: nat)
      requires Valid()
      requires index < |props.items|
      modifies this
      ensures Valid()
      ensures State() == ItemMouseEnter(old(State()), index).state
      ensures emitted == old(emitted)
    {
      focused := index;
    }

    method HandleDocumentPointerDown(insideRoot: bool)
      requires Valid()
      modifies this
      ensures Valid()
      ensures State() == DocumentPointerDown(old(State()), insideRoot).state
      ensures emitted == old(emitted)
    {
      if open && !insideRoot {
        open := false;
        focused := -1;
      }
    }
  }
}
