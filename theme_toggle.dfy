/**
 * The theme toggle button: on mount it reads the store's localStorage entry
 * and applies the saved theme to the root and body class lists; each click
 * switches light and dark, applies the new class and saves it back.
 */
module ThemeToggle {
  import opened Wrappers
  import opened Json
  import opened Dom
  import ThemeStore

  /**
   * The `theme` state. The code types it as 'light' | 'dark', but on mount
   * it takes whatever truthy value the stored JSON holds: a string, or
   * another kind of value that the class list sees as its `String()` text.
   */
  datatype ThemeValue = Named(name: string) | Foreign(text: string)

  const LightTheme: ThemeValue := Named("light")

  /** The class `classList.add` receives for this value. */
  function ClassName(v: ThemeValue): string {
    match v
    case Named(name) => name
    case Foreign(text) => text
  }

  /** The state a truthy JSON value becomes. */
  function ThemeOf(value: Json): ThemeValue
    requires Truthy(value)
  {
    match value
    case JString(s) => Named(s)
    case JObject(_) => Foreign("[object Object]")
    case JOther(_, text) => Foreign(text)
  }

  /**
   * The theme the mount effect settles on. No entry, or the empty string,
   * gives light; so does an entry `JSON.parse` rejects, a parsed `null`
   * (reading `.state` of it throws), and a missing or falsy `state.theme`.
   * A truthy stored theme is used as it is, unless adding it as a class
   * throws, in which case the catch falls back to light. The applied class
   * is therefore always a valid token.
   */
  function MountedTheme(saved: Option<string>, codec: Codec): (t: ThemeValue)
    ensures IsValidToken(ClassName(t))
    ensures saved.None? || saved == Some("") ==> t == LightTheme
    ensures saved.Some? && saved.value != "" && codec.parse(saved.value).None? ==> t == LightTheme
    ensures t != LightTheme ==>
      saved.Some? && codec.parse(saved.value).Some?
      && var stored := Member(Member(codec.parse(saved.value), "state"), "theme");
         stored.Some? && Truthy(stored.value) && t == ThemeOf(stored.value)
    ensures saved.Some? && saved.value != "" && codec.parse(saved.value).Some? ==>
      var stored := Member(Member(codec.parse(saved.value), "state"), "theme");
      stored.Some? && Truthy(stored.value) && IsValidToken(ClassName(ThemeOf(stored.value))) ==>
        t == ThemeOf(stored.value)
  {
    assert IsValidToken(ClassName(LightTheme)) by {
      assert forall i :: 0 <= i < 5 ==> "light"[i] in "light";
    }
    if saved.None? || saved.value == "" then LightTheme
    else match codec.parse(saved.value)
      case None => LightTheme
      case Some(parsed) =>
        if parsed == JNull then LightTheme
        else
          var stored := Member(Member(Some(parsed), "state"), "theme");
          if stored.None? || !Truthy(stored.value) then LightTheme
          else
            var t := ThemeOf(stored.value);
            if IsValidToken(ClassName(t)) then t else LightTheme
  }

  /** What `handleToggle` saves: `{state: {theme: name}}`. */
  function ToggleValue(name: string): (j: Json)
    ensures Member(Member(Some(j), "state"), "theme") == Some(JString(name))
  {
    JObject(map["state" := JObject(map["theme" := JString(name)])])
  }

  /** The theme a click switches to: dark from light, light from anything else. */
  function NextTheme(t: ThemeValue): (name: string)
    ensures name in ThemeClasses
    ensures name == "dark" <==> t == LightTheme
  {
    if t == LightTheme then "dark" else "light"
  }

  class Toggle {
    var theme: ThemeValue
    var mounted: bool
    var root: set<string>
    var body: set<string>
    var storage: map<string, string>

    constructor(root0: set<string>, body0: set<string>, storage0: map<string, string>)
      ensures theme == LightTheme && !mounted
      ensures root == root0 && body == body0 && storage == storage0
    {
      theme, mounted := LightTheme, false;
      root, body, storage := root0, body0, storage0;
    }

    /** `applyTheme(name)` for a name `classList.add` accepts. */
    method ApplyTheme(name: string)
      requires IsValidToken(name)
      modifies this
      ensures root == WithThemeClass(old(root), name) && body == WithThemeClass(old(body), name)
      ensures theme == old(theme) && mounted == old(mounted) && storage == old(storage)
    {
      root := WithThemeClass(root, name);
      body := WithThemeClass(body, name);
    }

    /** The mount effect: the stored theme (or light) becomes the state and the class of root and body. */
    method Mount(codec: Codec)
      modifies this
      ensures theme == MountedTheme(GetItem(old(storage), ThemeStore.StorageKey), codec)
      ensures root == WithThemeClass(old(root), ClassName(theme))
      ensures body == WithThemeClass(old(body), ClassName(theme))
      ensures mounted && storage == old(storage)
    {
      var t := MountedTheme(GetItem(storage, ThemeStore.StorageKey), codec);
      theme := t;
      ApplyTheme(ClassName(t));
      mounted := true;
    }

    /**
     * `handleToggle`: the state, both class lists and the saved entry all
     * move to the other theme together.
     */
    method HandleToggle(codec: Codec)
      modifies this
      ensures theme == Named(NextTheme(old(theme)))
      ensures root == WithThemeClass(old(root), NextTheme(old(theme)))
      ensures body == WithThemeClass(old(body), NextTheme(old(theme)))
      ensures storage == old(storage)[ThemeStore.StorageKey := codec.stringify(ToggleValue(NextTheme(old(theme))))]
      ensures mounted == old(mounted)
    {
      var name := NextTheme(theme);
      assert IsValidToken(name) by {
        assert forall i :: 0 <= i < |name| ==> name[i] in "darklight";
      }
      theme := Named(name);
      ApplyTheme(name);
      storage := storage[ThemeStore.StorageKey := codec.stringify(ToggleValue(name))];
    }
  }

  /** Mounting reads back whatever a click saved: the next page load keeps the toggled theme. */
  lemma MountAfterToggle(codec: Codec, name: string)
    requires IsFaithful(codec)
    requires name in ThemeClasses
    ensures MountedTheme(Some(codec.stringify(ToggleValue(name))), codec) == Named(name)
  {
    assert codec.parse(codec.stringify(ToggleValue(name))) == Some(ToggleValue(name));
    assert IsValidToken(name) by {
      assert forall i :: 0 <= i < |name| ==> name[i] in "darklight";
    }
  }

  /** Mounting also reads back the entry the persisted store writes for its own theme. */
  lemma MountReadsStoreEntry(codec: Codec, t: ThemeStore.Theme)
    requires IsFaithful(codec)
    ensures MountedTheme(Some(codec.stringify(ThemeStore.PersistedValue(t))), codec) == Named(ThemeStore.Name(t))
  {
    var v := ThemeStore.PersistedValue(t);
    assert codec.parse(codec.stringify(v)) == Some(v);
    var name := ThemeStore.Name(t);
    assert IsValidToken(name) by {
      assert forall i :: 0 <= i < |name| ==> name[i] in "darklight";
    }
  }

  /**
   * A stored theme name other than light or dark (say "blue") is applied as
   * it is, provided `classList.add` accepts it: neither theme class is then
   * present.
   */
  lemma ForeignStoredThemeIsApplied(codec: Codec, saved: string, name: string, classes: set<string>)
    requires saved != ""
    requires codec.parse(saved) == Some(ToggleValue(name))
    requires IsValidToken(name) && name !in ThemeClasses
    ensures MountedTheme(Some(saved), codec) == Named(name)
    ensures WithThemeClass(classes, name) * ThemeClasses == {}
  {
  }
}
