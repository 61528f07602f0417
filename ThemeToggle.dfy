/** The theme button and drop-down: which entry is current, what the next toggle is announced as, and
    choosing an entry. */
module ThemeToggle {
  import opened Common
  import ThemeContext

  datatype Icon = Sun | Moon | Monitor

  /** One entry of the `themes` table. */
  datatype ThemeOption = ThemeOption(key: string, caption: string, icon: Icon)

  const Options: seq<ThemeOption> := [
    ThemeOption(ThemeContext.Light, "Light", Sun),
    ThemeOption(ThemeContext.Dark, "Dark", Moon),
    ThemeOption(ThemeContext.System, "System", Monitor)
  ]

  /** `themes.findIndex(t => t.key === theme)`. */
  function FindIndex(options: seq<ThemeOption>, theme: string): (r: int)
    ensures -1 <= r < |options|
    ensures r == -1 <==> forall j :: 0 <= j < |options| ==> options[j].key != theme
    ensures r >= 0 ==> options[r].key == theme && forall j :: 0 <= j < r ==> options[j].key != theme
  {
    if options == [] then -1
    else if options[0].key == theme then 0
    else
      var k := FindIndex(options[1..], theme);
      if k == -1 then -1 else k + 1
  }

  /** The entries' keys are the cycle order of the theme context, and each caption lowers to its key. */
  lemma OptionsMatchThemes()
    ensures |Options| == |ThemeContext.Themes| == 3
    ensures forall j :: 0 <= j < 3 ==> Options[j].key == ThemeContext.Themes[j]
    ensures forall j :: 0 <= j < 3 ==> Lower(Options[j].caption) == Options[j].key
  {
    assert Lower("Light") == ThemeContext.Light;
    assert Lower("Dark") == ThemeContext.Dark;
    assert Lower("System") == ThemeContext.System;
  }

  /** Looking a theme up among the entries finds the same position as looking it up in the cycle. */
  lemma FindIndexIsIndexOf(theme: string)
    ensures FindIndex(Options, theme) == ThemeContext.IndexOf(ThemeContext.Themes, theme)
  {
    OptionsMatchThemes();
    var a, b := FindIndex(Options, theme), ThemeContext.IndexOf(ThemeContext.Themes, theme);
    if a >= 0 && b >= 0 {
      assert !(a < b) && !(b < a);
    }
  }

  /** `themes.find(t => t.key === theme)`. */
  function CurrentOption(theme: string): (r: Option<ThemeOption>)
    ensures r.Some? <==> theme in ThemeContext.Themes
    ensures r.Some? ==> r.value in Options && r.value.key == theme
  {
    var k := FindIndex(Options, theme);
    FindIndexIsIndexOf(theme);
    if k == -1 then None else Some(Options[k])
  }

  /** The button's icon, Sun when the theme has no entry. */
  function CurrentIcon(theme: string): (icon: Icon)
    ensures theme == ThemeContext.Light || theme !in ThemeContext.Themes ==> icon == Sun
    ensures theme == ThemeContext.Dark ==> icon == Moon
    ensures theme == ThemeContext.System ==> icon == Monitor
  {
    match CurrentOption(theme)
    case Some(o) => o.icon
    case None => Sun
  }

  /** The theme named in the "Switch to … theme" tooltip:
      `themes[(findIndex + 1) % themes.length].label.toLowerCase()`. */
  function SwitchTarget(theme: string): string {
    Lower(Options[(FindIndex(Options, theme) + 1) % |Options|].caption)
  }

  /** The tooltip announces exactly the theme the toggle will switch to, unknown themes included. */
  lemma SwitchTargetIsNextTheme(theme: string)
    ensures SwitchTarget(theme) == ThemeContext.NextTheme(theme)
  {
    OptionsMatchThemes();
    FindIndexIsIndexOf(theme);
  }

  /** `isActive` for each drop-down entry, in order. */
  function ActiveFlags(theme: string): (flags: seq<bool>)
    ensures |flags| == |Options|
    ensures forall i :: 0 <= i < |Options| ==> (flags[i] <==> Options[i].key == theme)
  {
    seq(|Options|, i requires 0 <= i < |Options| => Options[i].key == theme)
  }

  /** Exactly one entry is highlighted when the theme is one of the three keys, and none otherwise. */
  lemma OneActiveEntry(theme: string)
    ensures theme in ThemeContext.Themes ==>
      exists i :: 0 <= i < 3 && ActiveFlags(theme)[i] && forall j :: 0 <= j < 3 && j != i ==> !ActiveFlags(theme)[j]
    ensures theme !in ThemeContext.Themes ==> forall j :: 0 <= j < 3 ==> !ActiveFlags(theme)[j]
  {
    var flags := ActiveFlags(theme);
    if theme == ThemeContext.Light {
      assert flags[0];
    } else if theme == ThemeContext.Dark {
      assert flags[1];
    } else if theme == ThemeContext.System {
      assert flags[2];
    }
  }

  /** The drop-down variant's only state of its own. */
  class ThemeMenu {
    var showDropdown: bool

    constructor ()
      ensures !showDropdown
    {
      showDropdown := false;
    }

    /** The button flips the drop-down open or closed. */
    method ToggleDropdown()
      modifies this
      ensures showDropdown == !old(showDropdown)
    {
      showDropdown := !showDropdown;
    }

    /** Choosing entry `i` sets that entry's theme and closes the drop-down. */
    method Choose(ctx: ThemeContext.ThemeState, i: nat)
      requires i < |Options| && ctx.Valid()
      modifies this, ctx
      ensures ctx.Valid()
      ensures ctx.theme == Options[i].key && ctx.platformDark == old(ctx.platformDark)
      ensures ActiveFlags(ctx.theme)[i]
      ensures !showDropdown
    {
      ctx.SetTheme(Options[i].key);
      showDropdown := false;
    }
  }
}
