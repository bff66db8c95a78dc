/** The light/dark theme: chosen once at startup from the stored preference
    and the system colour scheme, flipped by the toggle button, written back
    to storage on every change. */
module ThemeState {
  import opened Wrappers

  datatype Theme = Dark | Light

  /** The theme before the startup decision runs. */
  const InitialTheme: Theme := Dark

  /** The string under which a theme is stored. */
  function Name(t: Theme): (r: string)
    ensures r == "dark" || r == "light"
    ensures Parse(r) == Some(t)
  {
    match t
    case Dark => "dark"
    case Light => "light"
  }

  /** A stored string read back as a theme: only the exact names are accepted. */
  function Parse(s: string): (r: Option<Theme>)
    ensures r.Some? <==> s == "dark" || s == "light"
  {
    if s == "light" then Some(Light)
    else if s == "dark" then Some(Dark)
    else None
  }

  /** Storing a theme and reading it back gives the same theme, and only a
      stored theme's own name parses. */
  lemma NameParseRoundTrip(t: Theme, s: string)
    ensures Parse(Name(t)) == Some(t)
    ensures Parse(s).Some? ==> Name(Parse(s).value) == s
  {
  }

  /** The startup decision over the stored value (None when nothing is
      stored) and whether the system prefers a light scheme. */
  function Startup(stored: Option<string>, prefersLight: bool): (r: Theme)
    ensures stored == Some("light") ==> r == Light
    ensures stored == Some("dark") ==> r == Dark
    ensures stored != Some("light") && stored != Some("dark") ==> (r == Light <==> prefersLight)
  {
    if stored.Some? && Parse(stored.value).Some? then Parse(stored.value).value
    else if prefersLight then Light
    else InitialTheme
  }

  /** The toggle button. */
  function Toggle(t: Theme): (r: Theme)
    ensures r != t
  {
    if t == Dark then Light else Dark
  }

  /** Toggling twice restores the theme; toggling is a bijection. */
  lemma ToggleInvolution(t: Theme, u: Theme)
    ensures Toggle(Toggle(t)) == t
    ensures Toggle(t) == Toggle(u) ==> t == u
  {
  }

  /** Whether the document root carries the `dark` class. */
  predicate DarkClass(t: Theme): (b: bool)
    ensures b <==> Name(t) == "dark"
  {
    t == Dark
  }

  /** The theme is written to storage after every change, so the next visit
      starts in the theme the last one ended in, whatever the system prefers. */
  lemma PersistedThemeRestored(t: Theme, prefersLight: bool)
    ensures Startup(Some(Name(t)), prefersLight) == t
    ensures Startup(Some(Name(Toggle(t))), prefersLight) != t
  {
  }

  /** Each toggle flips the `dark` class on the document root. */
  lemma ToggleFlipsDarkClass(t: Theme)
    ensures DarkClass(Toggle(t)) <==> !DarkClass(t)
  {
  }
}
