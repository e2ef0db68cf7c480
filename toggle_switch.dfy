/** The `ToggleSwitch` component: controlled or uncontrolled checked state,
    a `disabled` guard, and the `onChange` notification. */
module ToggleSwitchComponent {

  /** The JavaScript value of an optional boolean prop. */
  datatype JsBool = Undefined | Null | Bool(b: bool)

  /** JavaScript truthiness of such a value (`!!v`). */
  function Truthy(v: JsBool): bool {
    v.Bool? && v.b
  }

  /** The props that drive the logic. `disabled` has the default `false`;
      `hasOnChange` says whether an `onChange` callback was passed. */
  datatype Props = Props(checked: JsBool, defaultChecked: JsBool, disabled: bool, hasOnChange: bool)

  /** The state after a toggle, and the values passed to `onChange`. */
  datatype Outcome = Outcome(internalChecked: bool, changes: seq<bool>)

  /** `checked !== undefined`. */
  predicate IsControlled(p: Props) {
    p.checked != Undefined
  }

  /** `defaultChecked || false`, the initial `internalChecked`. */
  function InitialInternal(p: Props): bool {
    Truthy(p.defaultChecked)
  }

  /** `isControlled ? checked : internalChecked`. */
  function EffectiveChecked(p: Props, internalChecked: bool): JsBool {
    if IsControlled(p) then p.checked else Bool(internalChecked)
  }

  /** `aria-checked={!!effectiveChecked}`. */
  function AriaChecked(p: Props, internalChecked: bool): bool {
    Truthy(EffectiveChecked(p, internalChecked))
  }

  /** `tabIndex={disabled ? -1 : 0}`. */
  function TabIndex(p: Props): int {
    if p.disabled then -1 else 0
  }

  /** `handleToggle`. The value reported to `onChange` is computed from
      `effectiveChecked` as it was before the toggle. */
  function Toggle(p: Props, internalChecked: bool): Outcome {
    if p.disabled then Outcome(internalChecked, [])
    else
      var next := if IsControlled(p) then internalChecked else !internalChecked;
      var reported := !Truthy(EffectiveChecked(p, internalChecked));
      Outcome(next, if p.hasOnChange then [reported] else [])
  }

  /** Keys that toggle the switch. */
  predicate TogglesOnKey(key: string) {
    key == " " || key == "Spacebar" || key == "Enter"
  }

  /** `handleKeyDown`. */
  function KeyDown(p: Props, internalChecked: bool, key: string): Outcome {
    if TogglesOnKey(key) then Toggle(p, internalChecked) else Outcome(internalChecked, [])
  }

  // ---------------------------------------------------------------------
  // Sequences of user interactions.

  datatype Input = Click | KeyPress(key: string)

  function Step(p: Props, internalChecked: bool, input: Input): Outcome {
    match input
    case Click => Toggle(p, internalChecked)
    case KeyPress(key) => KeyDown(p, internalChecked, key)
  }

  function Run(p: Props, internalChecked: bool, inputs: seq<Input>): Outcome
    decreases |inputs|
  {
    if inputs == [] then Outcome(internalChecked, [])
    else
      var first := Step(p, internalChecked, inputs[0]);
      var rest := Run(p, first.internalChecked, inputs[1..]);
      Outcome(rest.internalChecked, first.changes + rest.changes)
  }

  /** Whether an interaction reaches `handleToggle`. */
  predicate Toggles(input: Input) {
    input.Click? || TogglesOnKey(input.key)
  }

  /** How many interactions of a sequence reach `handleToggle`. */
  function ToggleCount(inputs: seq<Input>): (n: nat)
    ensures n <= |inputs|
    decreases |inputs|
  {
    if inputs == [] then 0
    else (if Toggles(inputs[0]) then 1 else 0) + ToggleCount(inputs[1..])
  }

  // ---------------------------------------------------------------------
  // Properties of single toggles and of the derived attributes.

  /** Controlled exactly when `checked` is defined (null included); the
      effective state is then `checked`, and `internalChecked` otherwise. */
  lemma EffectiveCheckedSource(p: Props, internalChecked: bool)
    ensures IsControlled(p) <==> p.checked != Undefined
    ensures p.checked != Undefined ==> EffectiveChecked(p, internalChecked) == p.checked
    ensures p.checked == Undefined ==> EffectiveChecked(p, internalChecked) == Bool(internalChecked)
  {
  }

  /** `internalChecked` starts true only when `defaultChecked` is true. */
  lemma InitialInternalFromDefault(p: Props)
    ensures InitialInternal(p) <==> p.defaultChecked == Bool(true)
  {
  }

  /** A disabled switch ignores toggles: no state change, no `onChange`. */
  lemma DisabledToggleIsInert(p: Props, internalChecked: bool)
    requires p.disabled
    ensures Toggle(p, internalChecked) == Outcome(internalChecked, [])
  {
  }

  /** An enabled toggle negates `internalChecked` in uncontrolled mode and
      never touches it in controlled mode. */
  lemma EnabledToggleState(p: Props, internalChecked: bool)
    requires !p.disabled
    ensures !IsControlled(p) ==> Toggle(p, internalChecked).internalChecked == !internalChecked
    ensures IsControlled(p) ==> Toggle(p, internalChecked).internalChecked == internalChecked
  {
  }

  /** An enabled toggle calls `onChange` exactly once, when it is given,
      with the negation of the effective state before the toggle. */
  lemma EnabledToggleNotifies(p: Props, internalChecked: bool)
    requires !p.disabled
    ensures p.hasOnChange ==> Toggle(p, internalChecked).changes == [!AriaChecked(p, internalChecked)]
    ensures !p.hasOnChange ==> Toggle(p, internalChecked).changes == []
  {
  }

  /** Two enabled uncontrolled toggles restore `internalChecked`. */
  lemma DoubleToggleRestores(p: Props, internalChecked: bool)
    requires !p.disabled && !IsControlled(p)
    ensures Toggle(p, Toggle(p, internalChecked).internalChecked).internalChecked == internalChecked
  {
  }

  /** The toggling keys act exactly like a toggle; all other keys do nothing. */
  lemma KeyDownFilter(p: Props, internalChecked: bool, key: string)
    ensures TogglesOnKey(key) ==> KeyDown(p, internalChecked, key) == Toggle(p, internalChecked)
    ensures !TogglesOnKey(key) ==> KeyDown(p, internalChecked, key) == Outcome(internalChecked, [])
  {
  }

  /** `aria-checked` shows the effective state coerced to a boolean (so a
      null `checked` shows unchecked); `tabIndex` is -1 exactly when disabled. */
  lemma DerivedAttributes(p: Props, internalChecked: bool)
    ensures !IsControlled(p) ==> AriaChecked(p, internalChecked) == internalChecked
    ensures p.checked.Bool? ==> AriaChecked(p, internalChecked) == p.checked.b
    ensures p.checked == Null ==> !AriaChecked(p, internalChecked)
    ensures TabIndex(p) == -1 <==> p.disabled
    ensures TabIndex(p) == 0 <==> !p.disabled
  {
  }

  // ---------------------------------------------------------------------
  // Properties of whole interaction sequences.

  /** A disabled switch ignores every interaction. */
  lemma {:induction false} RunDisabledIsInert(p: Props, internalChecked: bool, inputs: seq<Input>)
    requires p.disabled
    ensures Run(p, internalChecked, inputs) == Outcome(internalChecked, [])
    decreases |inputs|
  {
    if inputs != [] {
      RunDisabledIsInert(p, internalChecked, inputs[1..]);
    }
  }

  /** In controlled mode `internalChecked` never changes, and since
      `checked` is fixed every `onChange` reports the same value. */
  lemma {:induction false} RunControlledKeepsInternal(p: Props, internalChecked: bool, inputs: seq<Input>)
    requires IsControlled(p)
    ensures Run(p, internalChecked, inputs).internalChecked == internalChecked
    ensures forall k :: 0 <= k < |Run(p, internalChecked, inputs).changes| ==>
      Run(p, internalChecked, inputs).changes[k] == !Truthy(p.checked)
    decreases |inputs|
  {
    if inputs != [] {
      RunControlledKeepsInternal(p, internalChecked, inputs[1..]);
      var first := Step(p, internalChecked, inputs[0]);
      var rest := Run(p, internalChecked, inputs[1..]);
      forall k | 0 <= k < |first.changes + rest.changes|
        ensures (first.changes + rest.changes)[k] == !Truthy(p.checked)
      {
        if k >= |first.changes| {
          assert (first.changes + rest.changes)[k] == rest.changes[k - |first.changes|];
        }
      }
    }
  }

  /** Enabled and uncontrolled: the switch ends in its starting state after
      an even number of toggles and in the opposite state after an odd
      number, and `onChange`, when given, is called once per toggle. */
  lemma {:induction false} RunUncontrolledParity(p: Props, internalChecked: bool, inputs: seq<Input>)
    requires !p.disabled && !IsControlled(p)
    ensures Run(p, internalChecked, inputs).internalChecked ==
      if ToggleCount(inputs) % 2 == 0 then internalChecked else !internalChecked
    ensures |Run(p, internalChecked, inputs).changes| == if p.hasOnChange then ToggleCount(inputs) else 0
    decreases |inputs|
  {
    if inputs != [] {
      var first := Step(p, internalChecked, inputs[0]);
      RunUncontrolledParity(p, first.internalChecked, inputs[1..]);
    }
  }

  /** Enabled and uncontrolled: the last value passed to `onChange` is the
      state the switch is left in. */
  lemma {:induction false} RunUncontrolledReportsState(p: Props, internalChecked: bool, inputs: seq<Input>)
    requires !p.disabled && !IsControlled(p) && p.hasOnChange
    ensures var r := Run(p, internalChecked, inputs);
      r.changes != [] ==> r.changes[|r.changes| - 1] == r.internalChecked
    decreases |inputs|
  {
    if inputs != [] {
      var first := Step(p, internalChecked, inputs[0]);
      RunUncontrolledReportsState(p, first.internalChecked, inputs[1..]);
      var rest := Run(p, first.internalChecked, inputs[1..]);
      if rest.changes == [] {
        RunUncontrolledParity(p, first.internalChecked, inputs[1..]);
      } else {
        assert (first.changes + rest.changes)[|first.changes + rest.changes| - 1] == rest.changes[|rest.changes| - 1];
      }
    }
  }

  // ---------------------------------------------------------------------
  // The component, with the React state as a field.

  class ToggleSwitch {
    const props: Props
    var internalChecked: bool
    /** Every value passed to `onChange` so far, oldest first. */
    ghost var changes: seq<bool>

    constructor (checked: JsBool, defaultChecked: JsBool, disabled: bool, hasOnChange: bool)
      ensures props == Props(checked, defaultChecked, disabled, hasOnChange)
      ensures internalChecked == InitialInternal(props) && changes == []
    {
      props := Props(checked, defaultChecked, disabled, hasOnChange);
      internalChecked := Truthy(defaultChecked);
      changes := [];
    }

    method HandleToggle()
      modifies this
      ensures internalChecked == Toggle(props, old(internalChecked)).internalChecked
      ensures changes == old(changes) + Toggle(props, old(internalChecked)).changes
    {
      if props.disabled {
        return;
      }
      var effective := EffectiveChecked(props, internalChecked);
      if !IsControlled(props) {
        internalChecked := !internalChecked;
      }
      if props.hasOnChange {
        changes := changes + [!Truthy(effective)];
      }
    }

    method HandleKeyDown(key: string)
      modifies this
      ensures internalChecked == KeyDown(props, old(internalChecked), key).internalChecked
      ensures changes == old(changes) + KeyDown(props, old(internalChecked), key).changes
    {
      if key == " " || key == "Spacebar" || key == "Enter" {
        HandleToggle();
      }
    }
  }
}
