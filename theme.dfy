/**
 * The theme provider (src/context/ThemeContext.tsx): the colour theme and the
 * low-performance flag, their initial values read from `localStorage`, their
 * toggles, and the effects that write them back and set the root class list.
 */
module Theme {
  import opened Wrappers

  const ThemeKey: string := "hfg-theme"
  const LowPerformanceKey: string := "hfg-low-perf"

  /** `localStorage.getItem(key)`. */
  function GetItem(store: map<string, string>, key: string): Option<string>
  {
    if key in store then Some(store[key]) else None
  }

  /** The stored theme when it is non-empty (it is not validated), else `'dark'`. */
  function InitialTheme(saved: Option<string>): (t: string)
    ensures t != ""
    ensures saved.Some? && saved.value != "" ==> t == saved.value
    ensures saved.None? || saved.value == "" ==> t == "dark"
  {
    match saved
    case Some(s) => if s != "" then s else "dark"
    case None => "dark"
  }

  /** Low-performance mode is on exactly when the stored text is `"true"`. */
  function InitialLowPerformance(saved: Option<string>): (b: bool)
    ensures b ==> saved.Some?
    ensures saved.Some? ==> (b <==> saved.value == "true")
  {
    saved == Some("true")
  }

  /** `prev === 'light' ? 'dark' : 'light'`. */
  function ToggleTheme(t: string): (r: string)
    ensures r == "light" || r == "dark"
    ensures r == "dark" <==> t == "light"
  {
    if t == "light" then "dark" else "light"
  }

  /** `prev => !prev`. */
  function TogglePerformanceMode(b: bool): (r: bool)
    ensures r != b
  {
    !b
  }

  /** `lowPerformanceMode.toString()`. */
  function BoolToString(b: bool): (s: string)
    ensures s == "true" || s == "false"
  {
    if b then "true" else "false"
  }

  /** Toggling a valid theme twice gives it back. */
  lemma ToggleThemeTwice(t: string)
    requires t == "light" || t == "dark"
    ensures ToggleTheme(ToggleTheme(t)) == t
  {
  }

  /** Writing the flag with `toString` and reading it back gives the same flag. */
  lemma LowPerformanceRoundTrip(store: map<string, string>, b: bool)
    ensures InitialLowPerformance(GetItem(store[LowPerformanceKey := BoolToString(b)], LowPerformanceKey)) == b
  {
  }

  /** Writing a non-empty theme and reading it back gives the same theme. */
  lemma ThemeRoundTrip(store: map<string, string>, t: string)
    requires t != ""
    ensures InitialTheme(GetItem(store[ThemeKey := t], ThemeKey)) == t
  {
  }

  /** `classList.remove(...)` of one token: every occurrence goes. */
  function RemoveClass(classes: seq<string>, c: string): (r: seq<string>)
    ensures forall d :: d in r <==> d in classes && d != c
  {
    if classes == [] then []
    else if classes[0] == c then RemoveClass(classes[1..], c)
    else [classes[0]] + RemoveClass(classes[1..], c)
  }

  /** `classList.add(c)`: appended unless already present. */
  function AddClass(classes: seq<string>, c: string): (r: seq<string>)
    ensures forall d :: d in r <==> d in classes || d == c
  {
    if c in classes then classes else classes + [c]
  }

  /** `root.classList.remove('light', 'dark'); root.classList.add(theme)`. */
  function ThemeClasses(classes: seq<string>, theme: string): (r: seq<string>)
    ensures theme in r
    ensures theme == "light" ==> "dark" !in r
    ensures theme == "dark" ==> "light" !in r
    ensures theme != "light" ==> "light" !in r
    ensures theme != "dark" ==> "dark" !in r
    ensures forall d :: d != "light" && d != "dark" && d != theme ==> (d in r <==> d in classes)
  {
    AddClass(RemoveClass(RemoveClass(classes, "light"), "dark"), theme)
  }

  /** The value handed to consumers of the context. */
  datatype ThemeContextValue = ThemeContextValue(theme: string, lowPerformanceMode: bool)

  /** `useTheme()`: throws outside a provider, otherwise returns the provider's value. */
  function UseTheme(context: Option<ThemeContextValue>): (r: Result<ThemeContextValue>)
    ensures context.None? <==> r == Err("useTheme must be used within a ThemeProvider")
    ensures context.Some? ==> r == Ok(context.value)
  {
    match context
    case None => Err("useTheme must be used within a ThemeProvider")
    case Some(v) => Ok(v)
  }

  /** The provider's state and the environment its effects write to. */
  class ThemeProvider {
    var theme: string
    var lowPerformanceMode: bool
    /** `localStorage`. */
    var storage: map<string, string>
    /** `document.documentElement.classList`. */
    var rootClasses: seq<string>

    predicate Valid()
      reads this
    {
      theme != ""
    }

    /** The lazy initialisers read `localStorage`; then both effects run. */
    constructor (store: map<string, string>, classes: seq<string>)
      ensures Valid()
      ensures theme == InitialTheme(GetItem(store, ThemeKey))
      ensures lowPerformanceMode == InitialLowPerformance(GetItem(store, LowPerformanceKey))
      ensures rootClasses == ThemeClasses(classes, theme)
      ensures storage == store[ThemeKey := theme][LowPerformanceKey := BoolToString(lowPerformanceMode)]
    {
      theme := InitialTheme(GetItem(store, ThemeKey));
      lowPerformanceMode := InitialLowPerformance(GetItem(store, LowPerformanceKey));
      storage := store;
      rootClasses := classes;
      new;
      ApplyTheme();
      PersistPerformanceMode();
    }

    /** The effect on `[theme]`: set the root class and save the theme. */
    method ApplyTheme()
      requires Valid()
      modifies this
      ensures Valid()
      ensures theme == old(theme) && lowPerformanceMode == old(lowPerformanceMode)
      ensures rootClasses == ThemeClasses(old(rootClasses), theme)
      ensures storage == old(storage)[ThemeKey := theme]
      ensures InitialTheme(GetItem(storage, ThemeKey)) == theme
    {
      rootClasses := ThemeClasses(rootClasses, theme);
      storage := storage[ThemeKey := theme];
    }

    /** The effect on `[lowPerformanceMode]`: save the flag as text. */
    method PersistPerformanceMode()
      requires Valid()
      modifies this
      ensures Valid()
      ensures theme == old(theme) && lowPerformanceMode == old(lowPerformanceMode)
      ensures rootClasses == old(rootClasses)
      ensures storage == old(storage)[LowPerformanceKey := BoolToString(lowPerformanceMode)]
      ensures InitialLowPerformance(GetItem(storage, LowPerformanceKey)) == lowPerformanceMode
    {
      storage := storage[LowPerformanceKey := BoolToString(lowPerformanceMode)];
    }

    /** `toggleTheme()`, followed by the effect it triggers. */
    method ToggleThemeAction()
      requires Valid()
      modifies this
      ensures Valid()
      ensures theme == ToggleTheme(old(theme))
      ensures lowPerformanceMode == old(lowPerformanceMode)
      ensures rootClasses == ThemeClasses(old(rootClasses), theme)
      ensures storage == old(storage)[ThemeKey := theme]
    {
      theme := ToggleTheme(theme);
      ApplyTheme();
    }

    /** `togglePerformanceMode()`, followed by the effect it triggers. */
    method TogglePerformanceModeAction()
      requires Valid()
      modifies this
      ensures Valid()
      ensures lowPerformanceMode == !old(lowPerformanceMode)
      ensures theme == old(theme) && rootClasses == old(rootClasses)
      ensures storage == old(storage)[LowPerformanceKey := BoolToString(lowPerformanceMode)]
    {
      lowPerformanceMode := TogglePerformanceMode(lowPerformanceMode);
      PersistPerformanceMode();
    }
  }
}
