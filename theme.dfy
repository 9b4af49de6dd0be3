/** The colour theme of js/script.js: the theme read from storage at load
    time (light by default), the toggle button that flips it and stores the
    new choice, and the icon that follows it. */
module Theme {
  import opened Js

  const Dark: string := "dark"
  const Light: string := "light"
  const SunIcon: string := "fas fa-sun"
  const MoonIcon: string := "fas fa-moon"

  /** `localStorage.getItem('theme') || 'light'`: a missing entry and an
      empty one both give the light theme; any other stored text is used as
      it is. */
  function InitialTheme(saved: Option<string>): (t: string)
    ensures t != ""
    ensures t == Light <==> saved == None || saved == Some("") || saved == Some(Light)
    ensures saved.Some? && saved.value != "" ==> t == saved.value
  {
    if saved.None? || saved.value == "" then Light else saved.value
  }

  /** The toggle: dark becomes light, and anything else becomes dark. */
  function Toggled(current: string): (t: string)
    ensures t == Dark || t == Light
    ensures t == Light <==> current == Dark
  {
    if current == Dark then Light else Dark
  }

  /** Toggling twice restores the theme exactly when it was dark or light;
      any other stored value settles on light. */
  lemma ToggleTwice(current: string)
    ensures Toggled(Toggled(current)) == current <==> current == Dark || current == Light
    ensures Toggled(Toggled(current)) == (if current == Dark then Dark else Light)
  {
  }

  /** `updateThemeIcon`: the sun for the dark theme, the moon otherwise. */
  function IconFor(theme: string): (icon: string)
    ensures icon == SunIcon || icon == MoonIcon
    ensures icon == SunIcon <==> theme == Dark
  {
    if theme == Dark then SunIcon else MoonIcon
  }

  /** The theme attribute of the document, the stored choice and the toggle
      button's icon, which the page may lack. */
  class ThemeSwitch {
    var theme: string
    var stored: Option<string>
    const hasIcon: bool
    var icon: string

    /** Page load: the theme is taken from storage, and the icon set to match
        when there is one; nothing is written to storage. */
    constructor (saved: Option<string>, iconPresent: bool, initialIcon: string)
      ensures theme == InitialTheme(saved) && stored == saved && hasIcon == iconPresent
      ensures icon == if iconPresent then IconFor(theme) else initialIcon
    {
      theme := InitialTheme(saved);
      stored := saved;
      hasIcon := iconPresent;
      icon := initialIcon;
      new;
      UpdateIcon();
    }

    method UpdateIcon()
      modifies this`icon
      ensures icon == if hasIcon then IconFor(theme) else old(icon)
    {
      if hasIcon {
        icon := if theme == Dark then SunIcon else MoonIcon;
      }
    }

    /** A click on the toggle: the theme flips, the new theme is stored, and
        the icon follows it. */
    method Toggle()
      modifies this`theme, this`stored, this`icon
      ensures theme == Toggled(old(theme)) && stored == Some(theme)
      ensures icon == if hasIcon then IconFor(theme) else old(icon)
    {
      var newTheme := if theme == Dark then Light else Dark;
      theme := newTheme;
      stored := Some(newTheme);
      UpdateIcon();
    }
  }
}
