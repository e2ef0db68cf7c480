/** The theme context: a single `theme` string held by `ThemeProvider`, the
    `toggleTheme` and `setTheme` actions, and the two document effects that
    mirror the theme onto the root element's `data-theme` attribute and the
    body's `theme-dark` / `theme-light` classes. */
module ThemeContext {

  const Light := "light"
  const Dark := "dark"
  const DataThemeAttribute := "data-theme"
  const DarkClass := "theme-dark"
  const LightClass := "theme-light"

  /** The themes the styling knows about. */
  predicate IsKnown(theme: string) {
    theme == Light || theme == Dark
  }

  /** The value a consumer sees outside any provider: theme "light", with
      `setTheme` and `toggleTheme` doing nothing. */
  datatype ContextValue = ContextValue(theme: string)

  function DefaultContext(): (c: ContextValue)
    ensures c.theme == Light && IsKnown(c.theme)
  {
    ContextValue("light")
  }

  /** The provider's `initial` prop when it is not given. */
  const DefaultInitial := "light"

  /** `curr === "light" ? "dark" : "light"`. */
  function Toggled(theme: string): (r: string)
    ensures IsKnown(r)
    ensures r == Dark <==> theme == Light
    ensures r != theme
  {
    if theme == "light" then "dark" else "light"
  }

  /** `element.classList.toggle(name, force)`. */
  function ToggleClass(classes: set<string>, name: string, force: bool): (r: set<string>)
    ensures name in r <==> force
    ensures forall c :: c != name ==> (c in r <==> c in classes)
  {
    if force then classes + {name} else classes - {name}
  }

  /** The body-class effect: `theme-dark` exactly for "dark", `theme-light`
      exactly for "light", never both, and every other class untouched. */
  function SyncBodyClasses(classes: set<string>, theme: string): (r: set<string>)
    ensures DarkClass in r <==> theme == Dark
    ensures LightClass in r <==> theme == Light
    ensures !(DarkClass in r && LightClass in r)
    ensures forall c :: c != DarkClass && c != LightClass ==> (c in r <==> c in classes)
  {
    ToggleClass(ToggleClass(classes, DarkClass, theme == Dark), LightClass, theme == Light)
  }

  /** The root-element effect: `setAttribute("data-theme", theme)`. */
  function SetDataTheme(attributes: map<string, string>, theme: string): (r: map<string, string>)
    ensures DataThemeAttribute in r && r[DataThemeAttribute] == theme
    ensures r.Keys == attributes.Keys + {DataThemeAttribute}
    ensures forall a :: a in attributes && a != DataThemeAttribute ==> r[a] == attributes[a]
  {
    attributes[DataThemeAttribute := theme]
  }

  /** The document reflects the theme. */
  predicate InSync(theme: string, attributes: map<string, string>, classes: set<string>) {
    && DataThemeAttribute in attributes && attributes[DataThemeAttribute] == theme
    && (DarkClass in classes <==> theme == Dark)
    && (LightClass in classes <==> theme == Light)
  }

  // ---------------------------------------------------------------------
  // Sequences of actions.

  datatype Action = ToggleTheme | SetTheme(theme: string)

  function Apply(theme: string, action: Action): string {
    match action
    case ToggleTheme => Toggled(theme)
    case SetTheme(t) => t
  }

  function Run(theme: string, actions: seq<Action>): string
    decreases |actions|
  {
    if actions == [] then theme else Run(Apply(theme, actions[0]), actions[1..])
  }

  /** Whether a sequence of actions holds nothing but toggles. */
  predicate OnlyToggles(actions: seq<Action>) {
    forall k :: 0 <= k < |actions| ==> actions[k].ToggleTheme?
  }

  // ---------------------------------------------------------------------
  // Properties.

  /** "light" goes to "dark"; every other string, known or not, goes to "light". */
  lemma ToggleMapping(theme: string)
    ensures theme == Light ==> Toggled(theme) == Dark
    ensures theme != Light ==> Toggled(theme) == Light
  {
  }

  /** From a known theme, toggling twice gives it back. */
  lemma ToggleTwiceRestores(theme: string)
    requires IsKnown(theme)
    ensures Toggled(Toggled(theme)) == theme
  {
  }

  /** An unknown theme set by `setTheme` is not restored by two toggles. */
  lemma ToggleTwiceNormalizesUnknown(theme: string)
    requires !IsKnown(theme)
    ensures Toggled(Toggled(theme)) == Dark
  {
  }

  /** The effects leave the document in sync with the theme, and applying
      them a second time changes nothing. */
  lemma EffectsSynchronize(theme: string, attributes: map<string, string>, classes: set<string>)
    ensures InSync(theme, SetDataTheme(attributes, theme), SyncBodyClasses(classes, theme))
    ensures SetDataTheme(SetDataTheme(attributes, theme), theme) == SetDataTheme(attributes, theme)
    ensures SyncBodyClasses(SyncBodyClasses(classes, theme), theme) == SyncBodyClasses(classes, theme)
  {
  }

  /** After a sequence of toggles only, a known theme has flipped once per
      toggle. */
  lemma {:induction false} RunTogglesParity(theme: string, actions: seq<Action>)
    requires IsKnown(theme) && OnlyToggles(actions)
    ensures Run(theme, actions) == if |actions| % 2 == 0 then theme else Toggled(theme)
    decreases |actions|
  {
    if actions != [] {
      assert actions[0].ToggleTheme?;
      assert OnlyToggles(actions[1..]) by {
        forall k | 0 <= k < |actions[1..]| ensures actions[1..][k].ToggleTheme? {
          assert actions[1..][k] == actions[k + 1];
        }
      }
      RunTogglesParity(Toggled(theme), actions[1..]);
    }
  }

  /** The last action decides: after a `setTheme(x)` the theme is exactly
      `x`, and after a toggle it is "light" or "dark". */
  lemma {:induction false} RunLastActionDecides(theme: string, actions: seq<Action>)
    requires actions != []
    ensures actions[|actions| - 1].SetTheme? ==> Run(theme, actions) == actions[|actions| - 1].theme
    ensures actions[|actions| - 1].ToggleTheme? ==> IsKnown(Run(theme, actions))
    decreases |actions|
  {
    if |actions| > 1 {
      RunLastActionDecides(Apply(theme, actions[0]), actions[1..]);
    }
  }

  // ---------------------------------------------------------------------
  // The provider, with the theme state and the document it writes to.

  class ThemeProvider {
    var theme: string
    /** The attributes of the document's root element. */
    var rootAttributes: map<string, string>
    /** The classes of the document's body. */
    var bodyClasses: set<string>

    ghost predicate Valid()
      reads this
    {
      InSync(theme, rootAttributes, bodyClasses)
    }

    /** Mount with the `initial` prop; the effects then run once. */
    constructor (initial: string, attributes: map<string, string>, classes: set<string>)
      ensures theme == initial && Valid()
      ensures rootAttributes == SetDataTheme(attributes, initial)
      ensures bodyClasses == SyncBodyClasses(classes, initial)
    {
      theme := initial;
      rootAttributes := SetDataTheme(attributes, initial);
      bodyClasses := SyncBodyClasses(classes, initial);
    }

    /** Mount without an `initial` prop. */
    constructor WithDefault(attributes: map<string, string>, classes: set<string>)
      ensures theme == Light && Valid()
      ensures rootAttributes == SetDataTheme(attributes, Light)
      ensures bodyClasses == SyncBodyClasses(classes, Light)
    {
      theme := DefaultInitial;
      rootAttributes := SetDataTheme(attributes, DefaultInitial);
      bodyClasses := SyncBodyClasses(classes, DefaultInitial);
    }

    /** The value handed to consumers. */
    function Value(): ContextValue
      reads this
    {
      ContextValue(theme)
    }

    /** The effects that run after a render with a new theme. */
    method ApplyEffects()
      modifies this
      ensures theme == old(theme) && Valid()
      ensures rootAttributes == SetDataTheme(old(rootAttributes), theme)
      ensures bodyClasses == SyncBodyClasses(old(bodyClasses), theme)
    {
      rootAttributes := rootAttributes[DataThemeAttribute := theme];
      bodyClasses := ToggleClass(bodyClasses, DarkClass, theme == Dark);
      bodyClasses := ToggleClass(bodyClasses, LightClass, theme == Light);
    }

    method ToggleTheme()
      modifies this
      ensures theme == Toggled(old(theme)) && IsKnown(theme) && Valid()
      ensures rootAttributes == SetDataTheme(old(rootAttributes), theme)
      ensures bodyClasses == SyncBodyClasses(old(bodyClasses), theme)
    {
      theme := if theme == Light then Dark else Light;
      ApplyEffects();
    }

    method SetTheme(x: string)
      modifies this
      ensures theme == x && Valid()
      ensures rootAttributes == SetDataTheme(old(rootAttributes), x)
      ensures bodyClasses == SyncBodyClasses(old(bodyClasses), x)
    {
      theme := x;
      ApplyEffects();
    }
  }
}
