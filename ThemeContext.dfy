/** The theme preference: a stored choice among light, dark and system, resolved against the platform's
    dark-mode signal. */
module ThemeContext {
  import opened Common

  const Light: string := "light"
  const Dark: string := "dark"
  const System: string := "system"

  /** The cycle order used by `toggleTheme`. */
  const Themes: seq<string> := [Light, Dark, System]

  /** `s.indexOf(x)`: the first index holding `x`, or -1. */
  function IndexOf(s: seq<string>, x: string): (r: int)
    ensures -1 <= r < |s|
    ensures r == -1 <==> x !in s
    ensures r >= 0 ==> s[r] == x && forall j :: 0 <= j < r ==> s[j] != x
  {
    if s == [] then -1
    else if s[0] == x then 0
    else
      var k := IndexOf(s[1..], x);
      if k == -1 then -1 else k + 1
  }

  /** The preference on start-up: the saved value when there is a non-empty one, otherwise 'system'. */
  function InitialTheme(saved: Option<string>): (t: string)
    ensures saved.Some? && saved.value != "" ==> t == saved.value
    ensures saved.None? || saved.value == "" ==> t == System
  {
    match saved
    case Some(s) => if s != "" then s else System
    case None => System
  }

  /** `updateTheme`'s choice: the preference itself, except that 'system' follows the platform signal. */
  function Resolve(theme: string, platformDark: bool): (r: string)
    ensures theme != System ==> r == theme
    ensures theme == System ==> (r == Dark <==> platformDark) && (r == Light <==> !platformDark)
  {
    if theme == System then (if platformDark then Dark else Light) else theme
  }

  /** `toggleTheme`'s successor: the next entry of the cycle, wrapping; an unknown value (index -1) goes to 'light'. */
  function NextTheme(theme: string): (r: string)
    ensures r in Themes
    ensures theme !in Themes ==> r == Light
  {
    Themes[(IndexOf(Themes, theme) + 1) % |Themes|]
  }

  /** The cycle is light, dark, system, light, so three toggles from any known theme come back to it. */
  lemma {:induction false} NextThemeCycle(theme: string)
    ensures NextTheme(Light) == Dark && NextTheme(Dark) == System && NextTheme(System) == Light
    ensures theme in Themes ==> NextTheme(NextTheme(NextTheme(theme))) == theme
    ensures theme in Themes ==> NextTheme(theme) != theme
  {
    assert IndexOf(Themes, Light) == 0;
    assert IndexOf(Themes, Dark) == 1 by {
      assert Themes[1..] == [Dark, System];
    }
    assert IndexOf(Themes, System) == 2 by {
      assert Themes[1..] == [Dark, System];
      assert Themes[1..][1..] == [System];
    }
  }

  class ThemeState {
    /** The preference (`theme`), the theme in force (`resolvedTheme`), the persisted entry, and the
        platform's dark-mode signal as last reported. */
    var theme: string
    var resolvedTheme: string
    var stored: Option<string>
    var platformDark: bool

    /** After every step the resolved theme follows the preference and the preference is persisted. */
    ghost predicate Valid()
      reads this
    {
      resolvedTheme == Resolve(theme, platformDark) && stored == Some(theme)
    }

    /** Mounting the provider: read the saved preference, then run the effect once. */
    constructor (saved: Option<string>, platformDark: bool)
      ensures Valid()
      ensures theme == InitialTheme(saved) && this.platformDark == platformDark
    {
      theme := InitialTheme(saved);
      this.platformDark := platformDark;
      resolvedTheme := Resolve(InitialTheme(saved), platformDark);
      stored := Some(InitialTheme(saved));
    }

    /** The effect on `theme`: re-resolve and persist. */
    method ApplyTheme()
      modifies this`resolvedTheme, this`stored
      ensures Valid()
    {
      resolvedTheme := Resolve(theme, platformDark);
      stored := Some(theme);
    }

    /** `toggleTheme`. */
    method ToggleTheme()
      requires Valid()
      modifies this
      ensures Valid()
      ensures theme == NextTheme(old(theme)) && platformDark == old(platformDark)
    {
      theme := NextTheme(theme);
      ApplyTheme();
    }

    /** `setTheme` as exported by the context. */
    method SetTheme(newTheme: string)
      requires Valid()
      modifies this
      ensures Valid()
      ensures theme == newTheme && platformDark == old(platformDark)
    {
      theme := newTheme;
      ApplyTheme();
    }

    /** The platform's colour-scheme change listener: only a 'system' preference re-resolves; the stored
        preference never changes. */
    method PlatformChanged(dark: bool)
      requires Valid()
      modifies this
      ensures Valid()
      ensures theme == old(theme) && stored == old(stored) && platformDark == dark
      ensures old(theme) != System ==> resolvedTheme == old(resolvedTheme)
    {
      platformDark := dark;
      if theme == System {
        resolvedTheme := Resolve(theme, platformDark);
      }
    }

    /** `isDark`. */
    function IsDark(): (b: bool)
      reads this
      requires Valid()
      ensures b <==> (theme == Dark || (theme == System && platformDark))
    {
      resolvedTheme == Dark
    }
  }
}
