/**
 * The simpler theme toggle: an `isDark` flag read from the plain `theme`
 * entry of localStorage, applied to the root and body class lists, and
 * written back on every click.
 */
module SimpleThemeToggle {
  import opened Wrappers
  import opened Dom

  const ThemeKey: string := "theme"

  /** The class and stored text for a flag value. */
  function ThemeName(isDark: bool): (name: string)
    ensures name in ThemeClasses
    ensures name == "dark" <==> isDark
  {
    if isDark then "dark" else "light"
  }

  /** `localStorage.getItem('theme') === 'dark'`: a missing entry or any other text means light. */
  function StoredIsDark(storage: map<string, string>): (isDark: bool)
    ensures isDark <==> ThemeKey in storage && storage[ThemeKey] == "dark"
  {
    GetItem(storage, ThemeKey) == Some("dark")
  }

  class SimpleToggle {
    var isDark: bool
    var root: set<string>
    var body: set<string>
    var storage: map<string, string>

    constructor(root0: set<string>, body0: set<string>, storage0: map<string, string>)
      ensures !isDark && root == root0 && body == body0 && storage == storage0
    {
      isDark := false;
      root, body, storage := root0, body0, storage0;
    }

    /** The mount effect: the flag comes from storage, and root and body get the matching class. */
    method Mount()
      modifies this
      ensures isDark == StoredIsDark(old(storage))
      ensures root == WithThemeClass(old(root), ThemeName(isDark))
      ensures body == WithThemeClass(old(body), ThemeName(isDark))
      ensures storage == old(storage)
    {
      isDark := StoredIsDark(storage);
      root := WithThemeClass(root, ThemeName(isDark));
      body := WithThemeClass(body, ThemeName(isDark));
    }

    /** `toggleTheme`: the flag flips, and both class lists and the stored entry follow it. */
    method ToggleTheme()
      modifies this
      ensures isDark == !old(isDark)
      ensures root == WithThemeClass(old(root), ThemeName(isDark))
      ensures body == WithThemeClass(old(body), ThemeName(isDark))
      ensures storage == old(storage)[ThemeKey := ThemeName(isDark)]
    {
      isDark := !isDark;
      root := WithThemeClass(root, ThemeName(isDark));
      body := WithThemeClass(body, ThemeName(isDark));
      storage := storage[ThemeKey := ThemeName(isDark)];
    }
  }

  /** The entry a click writes reads back as the same flag on the next mount. */
  lemma StoredFlagReadsBack(storage: map<string, string>, isDark: bool)
    ensures StoredIsDark(storage[ThemeKey := ThemeName(isDark)]) == isDark
  {
  }

  /**
   * Two clicks after mounting restore the flag, both class lists and the
   * stored entry's meaning to what they were.
   */
  method MountThenToggleTwice(t: SimpleToggle)
    modifies t
    ensures t.isDark == StoredIsDark(old(t.storage))
    ensures t.root == WithThemeClass(old(t.root), ThemeName(t.isDark))
    ensures t.body == WithThemeClass(old(t.body), ThemeName(t.isDark))
    ensures StoredIsDark(t.storage) == t.isDark
  {
    t.Mount();
    t.ToggleTheme();
    t.ToggleTheme();
    LastSwapWins(old(t.root), ThemeName(!t.isDark), ThemeName(t.isDark));
    LastSwapWins(old(t.body), ThemeName(!t.isDark), ThemeName(t.isDark));
    LastSwapWins(old(t.root), ThemeName(t.isDark), ThemeName(!t.isDark));
    LastSwapWins(old(t.body), ThemeName(t.isDark), ThemeName(!t.isDark));
  }
}
