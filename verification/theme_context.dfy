/** The colour theme of ai-tool/contexts/ThemeContext.tsx. The browser's
    pieces are values: the stored "theme" entry, the `dark` class on the
    root element and whether the system prefers a dark scheme. */
module ThemeContext {
  import opened Wrappers
  import opened Types

  const LightTheme: string := "light"
  const DarkTheme: string := "dark"

  /** The stored entry is a plain string; a value other than the two themes
      is taken as it is. */
  datatype ThemeState = ThemeState(
    theme: string,
    mounted: bool,
    isBrowser: bool,
    stored: Option<string>,
    darkClass: bool)

  /** The state before the mount effect runs: light. */
  function BeforeMount(isBrowser: bool, stored: Option<string>, darkClass: bool): (s: ThemeState)
    ensures s.theme == LightTheme && !s.mounted
  {
    ThemeState(LightTheme, false, isBrowser, stored, darkClass)
  }

  /** The mount effect: a truthy saved theme is used, else the system
      preference. The root class is left as it is. */
  function Mount(s: ThemeState, prefersDark: bool): (r: ThemeState)
    ensures r.mounted
    ensures s.isBrowser && Truthy(s.stored) ==> r.theme == s.stored.value
    ensures s.isBrowser && !Truthy(s.stored) ==> r.theme == (if prefersDark then DarkTheme else LightTheme)
    ensures !s.isBrowser ==> r.theme == s.theme
    ensures r.stored == s.stored && r.darkClass == s.darkClass && r.isBrowser == s.isBrowser
  {
    var mounted := s.(mounted := true);
    if !s.isBrowser then mounted
    else if Truthy(s.stored) then mounted.(theme := s.stored.value)
    else mounted.(theme := if prefersDark then DarkTheme else LightTheme)
  }

  /** `toggleTheme`: light becomes dark and anything else light; in a
      browser the new theme is stored and the root has the `dark` class
      exactly when the new theme is dark. */
  function Toggle(s: ThemeState): (r: ThemeState)
    ensures s.theme == LightTheme ==> r.theme == DarkTheme
    ensures s.theme != LightTheme ==> r.theme == LightTheme
    ensures s.isBrowser ==> r.stored == Some(r.theme) && (r.darkClass <==> r.theme == DarkTheme)
    ensures !s.isBrowser ==> r.stored == s.stored && r.darkClass == s.darkClass
    ensures r.mounted == s.mounted && r.isBrowser == s.isBrowser
  {
    var newTheme := if s.theme == LightTheme then DarkTheme else LightTheme;
    var r := s.(theme := newTheme);
    if s.isBrowser then r.(stored := Some(newTheme), darkClass := newTheme == DarkTheme) else r
  }

  /** Toggling twice from light or dark restores the theme. */
  lemma ToggleTwiceRestores(s: ThemeState)
    requires s.theme == LightTheme || s.theme == DarkTheme
    ensures Toggle(Toggle(s)).theme == s.theme
  {
  }

  /** A theme chosen by a toggle is the one the next visit mounts with,
      whatever the system prefers. */
  lemma ToggledThemeSurvivesReload(s: ThemeState, prefersDark: bool)
    requires s.isBrowser
    ensures Mount(BeforeMount(true, Toggle(s).stored, Toggle(s).darkClass), prefersDark).theme == Toggle(s).theme
  {
  }
}
