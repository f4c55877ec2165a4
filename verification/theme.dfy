/** The light/dark theme toggle and the code-highlighting stylesheet that
    follows it.

    The theme is the `data-bs-theme` attribute of the root element (absent
    or any string); a click flips `dark` to `light` and anything else to
    `dark`, stores the choice under the key `theme`, and updates the icon
    and the two highlighting stylesheets. */
module Theme {
  import opened JsString
  import opened Wrappers

  /** "dark" */
  const Dark: Text := [0x64, 0x61, 0x72, 0x6B]
  /** "light" */
  const Light: Text := [0x6C, 0x69, 0x67, 0x68, 0x74]

  /** The theme a click switches to, given the current attribute. */
  function NextTheme(current: Option<Text>): (t: Text)
    ensures t == Dark || t == Light
    ensures t == Light <==> current == Some(Dark)
  {
    if current == Some(Dark) then Light else Dark
  }

  /** Two clicks from either of the two themes come back to it. */
  lemma NextThemeTwice(t: Text)
    requires t == Dark || t == Light
    ensures NextTheme(Some(NextTheme(Some(t)))) == t
  {
  }

  /** The icon of `#themeIcon`: a sun in the dark theme, a moon otherwise. */
  datatype Icon = Sun | Moon

  /** A `<link>` stylesheet element and its `disabled` flag. */
  class Stylesheet {
    var disabled: bool

    constructor (disabled: bool)
      ensures this.disabled == disabled
    {
      this.disabled := disabled;
    }
  }

  /** `switchCodeTheme`: enables the sheet matching the theme and disables
      the other; a missing sheet is skipped. */
  method SwitchCodeTheme(theme: Text, light: Stylesheet?, dark: Stylesheet?)
    requires light == null || light != dark
    modifies light, dark
    ensures light != null ==> light.disabled == (theme == Dark)
    ensures dark != null ==> dark.disabled == (theme != Dark)
    ensures light != null && dark != null ==> light.disabled != dark.disabled
  {
    if theme == Dark {
      if light != null { light.disabled := true; }
      if dark != null { dark.disabled := false; }
    } else {
      if light != null { light.disabled := false; }
      if dark != null { dark.disabled := true; }
    }
  }

  /** The page state the toggle touches. */
  class ThemeToggle {
    /** `data-bs-theme` on the root element. */
    var theme: Option<Text>
    /** `localStorage['theme']`. */
    var stored: Option<Text>
    /** `#themeIcon`'s icon, or None when the page has no icon element. */
    var icon: Option<Icon>
    const lightSheet: Stylesheet?
    const darkSheet: Stylesheet?

    ghost predicate Valid()
      reads this
    {
      lightSheet == null || lightSheet != darkSheet
    }

    constructor (theme: Option<Text>, stored: Option<Text>, icon: Option<Icon>,
                 lightSheet: Stylesheet?, darkSheet: Stylesheet?)
      requires lightSheet == null || lightSheet != darkSheet
      ensures Valid()
      ensures this.theme == theme && this.stored == stored && this.icon == icon
      ensures this.lightSheet == lightSheet && this.darkSheet == darkSheet
    {
      this.theme := theme;
      this.stored := stored;
      this.icon := icon;
      this.lightSheet := lightSheet;
      this.darkSheet := darkSheet;
    }

    /** `updateIcon`: the icon and the highlighting follow the attribute. */
    method UpdateIcon()
      requires Valid()
      modifies this`icon, lightSheet, darkSheet
      ensures icon == if old(icon).Some? then Some(if theme == Some(Dark) then Sun else Moon) else None
      ensures darkSheet != null ==> darkSheet.disabled == (theme != Some(Dark))
      ensures lightSheet != null ==> lightSheet.disabled == (theme == Some(Dark))
    {
      var isDark := theme == Some(Dark);
      if icon.Some? {
        icon := Some(if isDark then Sun else Moon);
      }
      SwitchCodeTheme(if isDark then Dark else Light, lightSheet, darkSheet);
    }

    /** A click on `#themeToggle`. */
    method Click()
      requires Valid()
      modifies this, lightSheet, darkSheet
      ensures Valid()
      ensures theme == Some(NextTheme(old(theme))) && stored == theme
      ensures icon == if old(icon).Some? then Some(if old(theme) == Some(Dark) then Moon else Sun) else None
      ensures darkSheet != null ==> darkSheet.disabled == (old(theme) == Some(Dark))
      ensures lightSheet != null ==> lightSheet.disabled == (old(theme) != Some(Dark))
    {
      var newTheme := if theme == Some(Dark) then Light else Dark;
      theme := Some(newTheme);
      stored := Some(newTheme);
      UpdateIcon();
    }
  }
}
