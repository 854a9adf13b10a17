/**
 * The persisted application store: a single `theme` field with `setTheme`
 * and `toggleTheme`, saved to localStorage under one key by the persistence
 * middleware, which writes only the theme.
 */
module ThemeStore {
  import opened Wrappers
  import opened Json
  import Dom

  datatype Theme = Light | Dark

  /** The theme's class name and stored text. */
  function Name(t: Theme): (s: string)
    ensures s in Dom.ThemeClasses
    ensures t == Light <==> s == "light"
  {
    if t == Light then "light" else "dark"
  }

  /** `state.theme === 'light' ? 'dark' : 'light'`: always the other theme. */
  function Toggled(t: Theme): (r: Theme)
    ensures r != t
  {
    if t == Light then Dark else Light
  }

  /** Toggling twice gives back the theme toggled from. */
  lemma ToggleInvolution(t: Theme)
    ensures Toggled(Toggled(t)) == t
  {
  }

  const StorageKey: string := "lifesync-theme-storage"

  /** `partialize`: the persisted part of the state is the theme alone. */
  function Partialize(t: Theme): (j: Json)
    ensures j.JObject? && j.fields.Keys == {"theme"} && j.fields["theme"] == JString(Name(t))
  {
    JObject(map["theme" := JString(Name(t))])
  }

  /** What the middleware stores: `{state: partialize(state), version: 0}`. */
  function PersistedValue(t: Theme): (j: Json)
    ensures j.JObject? && j.fields.Keys == {"state", "version"}
    ensures Member(Member(Some(j), "state"), "theme") == Some(JString(Name(t)))
  {
    JObject(map["state" := Partialize(t), "version" := JOther(false, "0")])
  }

  class AppStore {
    var theme: Theme
    var storage: map<string, string>

    constructor(storage0: map<string, string>)
      ensures theme == Light && storage == storage0
    {
      theme := Light;
      storage := storage0;
    }

    /** `setTheme(t)`: the theme becomes `t`, and only the store's own key is rewritten. */
    method SetTheme(t: Theme, codec: Codec)
      modifies this
      ensures theme == t
      ensures storage == old(storage)[StorageKey := codec.stringify(PersistedValue(t))]
    {
      theme := t;
      storage := storage[StorageKey := codec.stringify(PersistedValue(t))];
    }

    /** `toggleTheme()`: light becomes dark and dark becomes light, and the new theme is saved. */
    method ToggleTheme(codec: Codec)
      modifies this
      ensures theme == Toggled(old(theme))
      ensures storage == old(storage)[StorageKey := codec.stringify(PersistedValue(theme))]
    {
      theme := Toggled(theme);
      storage := storage[StorageKey := codec.stringify(PersistedValue(theme))];
    }
  }

  /** Setting the same theme twice leaves the store as one call does. */
  method SetThemeIdempotent(store: AppStore, t: Theme, codec: Codec)
    modifies store
    ensures store.theme == t
    ensures store.storage == old(store.storage)[StorageKey := codec.stringify(PersistedValue(t))]
  {
    store.SetTheme(t, codec);
    store.SetTheme(t, codec);
  }
}
