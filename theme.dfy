/**
 * The two theme toggles, which differ and are kept apart: the portfolio pages switch between the
 * default theme `''` and `'light'`, the project page between `'dark'` and `'light'`. Both apply
 * a stored theme at start-up. `theme` is `document.documentElement.dataset.theme`, with "" for
 * unset; `storage` is `localStorage`.
 */
module Theme {

  const ThemeKey := "theme"

  /** `const preferred = localStorage.getItem('theme'); if (preferred) setTheme(preferred)`. */
  function InitialTheme(storage: map<string, string>, theme: string): (r: string)
    ensures ThemeKey in storage && storage[ThemeKey] != "" ==> r == storage[ThemeKey]
    ensures !(ThemeKey in storage && storage[ThemeKey] != "") ==> r == theme
  {
    if ThemeKey in storage && storage[ThemeKey] != "" then storage[ThemeKey] else theme
  }

  /**
   * A non-empty stored theme wins over the markup's; removing the key, or storing `''`, which
   * is falsy, leaves the markup's theme.
   */
  lemma InitialThemeAfterStore(storage: map<string, string>, markup: string, t: string)
    ensures t != "" ==> InitialTheme(storage[ThemeKey := t], markup) == t
    ensures InitialTheme(storage[ThemeKey := ""], markup) == markup
    ensures InitialTheme(storage - {ThemeKey}, markup) == markup
  {
  }

  // ---------------------------------------------------------------- '' and 'light'

  /** `(dataset.theme === 'light') ? '' : 'light'`. */
  function NextAppTheme(theme: string): string
  {
    if theme == "light" then "" else "light"
  }

  /** `if (next) localStorage.setItem('theme', next); else localStorage.removeItem('theme')`. */
  function PersistAppTheme(storage: map<string, string>, next: string): (r: map<string, string>)
    ensures next != "" ==> ThemeKey in r && r[ThemeKey] == next
    ensures next == "" ==> ThemeKey !in r
    ensures forall k :: k in storage && k != ThemeKey ==> k in r && r[k] == storage[k]
    ensures forall k :: k in r && k != ThemeKey ==> k in storage
  {
    if next != "" then storage[ThemeKey := next] else storage - {ThemeKey}
  }

  /** The toggle alternates between `'light'` and the default, and any other theme goes to `'light'`. */
  lemma AppToggleAlternates(theme: string)
    ensures NextAppTheme(theme) in {"", "light"}
    ensures theme != "light" ==> NextAppTheme(theme) == "light"
    ensures NextAppTheme(NextAppTheme(theme)) == if theme == "light" then "light" else ""
    ensures NextAppTheme("dark") == "light"
  {
  }

  /**
   * What the toggle leaves in storage is what the next start-up applies; a toggle to the default
   * removes the key, so the next start keeps whatever theme the markup sets.
   */
  lemma AppToggleSurvivesReload(storage: map<string, string>, theme: string, markup: string)
    ensures InitialTheme(PersistAppTheme(storage, NextAppTheme(theme)), markup) ==
      if NextAppTheme(theme) == "" then markup else NextAppTheme(theme)
  {
  }

  // ---------------------------------------------------------------- 'dark' and 'light'

  /** `dataset.theme || (matchMedia('(prefers-color-scheme: dark)').matches ? 'dark' : 'light')`. */
  function CurrentTheme(theme: string, systemDark: bool): (r: string)
    ensures theme != "" ==> r == theme
    ensures theme == "" ==> r == (if systemDark then "dark" else "light")
  {
    if theme != "" then theme else if systemDark then "dark" else "light"
  }

  /** `curr === 'dark' ? 'light' : 'dark'`. */
  function NextMainTheme(curr: string): string
  {
    if curr == "dark" then "light" else "dark"
  }

  /** One toggle: the new theme, which is always written to storage. */
  function MainToggle(theme: string, systemDark: bool): (r: string)
    ensures r in {"dark", "light"}
    ensures r == "light" <==> CurrentTheme(theme, systemDark) == "dark"
  {
    NextMainTheme(CurrentTheme(theme, systemDark))
  }

  /**
   * The current theme is never empty; it is the page's own theme once one is set, so after a
   * toggle it is what the toggle chose whatever the system preference says.
   */
  lemma CurrentThemeSettled(theme: string, systemDark: bool, laterDark: bool)
    ensures CurrentTheme(theme, systemDark) != ""
    ensures CurrentTheme(theme, systemDark) in {theme, "dark", "light"}
    ensures CurrentTheme(MainToggle(theme, systemDark), laterDark) == MainToggle(theme, systemDark)
  {
  }

  /** After the first toggle the system preference no longer matters and toggles alternate. */
  lemma MainToggleAlternates(theme: string, systemDark: bool, laterDark: bool)
    ensures MainToggle(MainToggle(theme, systemDark), laterDark) != MainToggle(theme, systemDark)
  {
  }

  /** Nothing stored and a light system preference: two toggles give `'dark'`, then `'light'`. */
  lemma MainFromLightSystem()
    ensures var t0 := InitialTheme(map[], "");
      var t1 := MainToggle(t0, false);
      t1 == "dark" && MainToggle(t1, false) == "light"
  {
  }

  /** What the toggle wrote is what the next start-up applies. */
  lemma MainToggleSurvivesReload(storage: map<string, string>, theme: string, systemDark: bool, markup: string)
    ensures InitialTheme(storage[ThemeKey := MainToggle(theme, systemDark)], markup) == MainToggle(theme, systemDark)
  {
  }
}
