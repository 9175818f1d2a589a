/**
 * The application's dark-mode preference: its initial value from the
 * saved setting and the system preference, the toggle, and the effect that
 * keeps the root `dark` class and the saved setting in step with it.
 */
module Theme {
  import opened Wrappers

  /** The storage key's string value after `localStorage.setItem('darkMode', isDark)`. */
  function Persisted(isDark: bool): (s: string)
    ensures isDark ==> s == "true"
    ensures !isDark ==> s == "false"
  {
    if isDark then "true" else "false"
  }

  /**
   * `savedMode === 'true' || (!savedMode && systemPrefersDark)`: `saved` is
   * `None` when nothing is stored.
   */
  function InitialDark(saved: Option<string>, systemPrefersDark: bool): (dark: bool)
    ensures saved == Some("true") ==> dark
    ensures saved.Some? && saved.value != "" && saved.value != "true" ==> !dark
    ensures saved == None || saved == Some("") ==> dark == systemPrefersDark
  {
    saved == Some("true") || ((saved == None || saved == Some("")) && systemPrefersDark)
  }

  /** A saved `'true'` means dark whatever the system prefers. */
  lemma SavedTrueIsDark(systemPrefersDark: bool)
    ensures InitialDark(Some("true"), systemPrefersDark)
  {
  }

  /** Any other non-empty saved value means light whatever the system prefers. */
  lemma SavedOtherIsLight(saved: string, systemPrefersDark: bool)
    requires saved != "" && saved != "true"
    ensures !InitialDark(Some(saved), systemPrefersDark)
  {
  }

  /** With nothing (or an empty string) saved, the system preference decides. */
  lemma NothingSavedFollowsSystem(saved: Option<string>, systemPrefersDark: bool)
    requires saved == None || saved == Some("")
    ensures InitialDark(saved, systemPrefersDark) == systemPrefersDark
  {
  }

  /** Reading back what was saved restores the mode, whatever the system prefers. */
  lemma PersistedRoundTrip(isDark: bool, systemPrefersDark: bool)
    ensures InitialDark(Some(Persisted(isDark)), systemPrefersDark) == isDark
  {
  }

  /** The page state the preference drives. */
  datatype Page = Page(isDark: bool, saved: Option<string>, rootClasses: set<string>)

  /** Class list and saved value both agree with the mode. */
  predicate InStep(p: Page) {
    && p.saved == Some(Persisted(p.isDark))
    && ("dark" in p.rootClasses <==> p.isDark)
  }

  /** The effect run whenever the mode changes: class list and storage follow the mode. */
  function Sync(isDark: bool, rootClasses: set<string>): (p: Page)
    ensures p.isDark == isDark
    ensures p.saved == Some(Persisted(isDark))
    ensures "dark" in p.rootClasses <==> isDark
    ensures p.rootClasses - {"dark"} == rootClasses - {"dark"}
  {
    Page(isDark, Some(Persisted(isDark)), if isDark then rootClasses + {"dark"} else rootClasses - {"dark"})
  }

  /** Page load: resolve the mode, then run the effect; the page starts in step. */
  function Mount(saved: Option<string>, systemPrefersDark: bool, rootClasses: set<string>): (p: Page)
    ensures p.isDark == InitialDark(saved, systemPrefersDark)
    ensures InStep(p)
    ensures p.rootClasses - {"dark"} == rootClasses - {"dark"}
  {
    Sync(InitialDark(saved, systemPrefersDark), rootClasses)
  }

  /** `setIsDarkMode(prev => !prev)`, followed by the effect; the page ends in step. */
  function Toggle(p: Page): (q: Page)
    ensures q.isDark == !p.isDark
    ensures InStep(q)
    ensures q.rootClasses - {"dark"} == p.rootClasses - {"dark"}
  {
    Sync(!p.isDark, p.rootClasses)
  }

  /** The toast container's theme. */
  function ToastTheme(isDark: bool): (t: string)
    ensures t == "dark" <==> isDark
    ensures !isDark ==> t == "light"
  {
    if isDark then "dark" else "light"
  }

  /** Toggling twice gives back the same page, once it is in step. */
  lemma ToggleTwice(p: Page)
    requires InStep(p)
    ensures Toggle(Toggle(p)) == p
  {
    if p.isDark {
      assert Toggle(Toggle(p)).rootClasses == p.rootClasses - {"dark"} + {"dark"};
    }
  }

  /** Reloading the page restores the mode it was left in, whatever the system prefers. */
  lemma ReloadRestoresMode(p: Page, systemPrefersDark: bool, rootClasses: set<string>)
    requires InStep(p)
    ensures Mount(p.saved, systemPrefersDark, rootClasses).isDark == p.isDark
  {
  }
}
