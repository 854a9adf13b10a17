/**
 * The JSON values the theme code stores in and reads from localStorage.
 * `JSON.parse` and `JSON.stringify` belong to the browser, so they are a
 * pair of functions passed in; what the round trips need of them is stated
 * as a precondition, never assumed.
 */
module Json {
  import opened Wrappers

  datatype Json =
    | JNull
    | JString(s: string)
    | JObject(fields: map<string, Json>)
    /** A number, boolean or array: only its truthiness and its `String()` form matter here. */
    | JOther(truthy: bool, text: string)

  datatype Codec = Codec(parse: string -> Option<Json>, stringify: Json -> string)

  /** `JSON.stringify` never writes the empty text, and `JSON.parse` reads back exactly what it wrote. */
  ghost predicate IsFaithful(codec: Codec) {
    forall j :: codec.stringify(j) != "" && codec.parse(codec.stringify(j)) == Some(j)
  }

  /** JavaScript truthiness: null and '' are falsy, objects are truthy. */
  predicate Truthy(j: Json) {
    match j
    case JNull => false
    case JString(s) => s != ""
    case JObject(_) => true
    case JOther(truthy, _) => truthy
  }

  /** `value?.key` for an optional value (`None` is `undefined`): absent for null, undefined, non-objects and missing keys. */
  function Member(value: Option<Json>, key: string): (r: Option<Json>)
    ensures r.Some? <==> value.Some? && value.value.JObject? && key in value.value.fields
    ensures r.Some? ==> r.value == value.value.fields[key]
  {
    match value
    case Some(JObject(fields)) => if key in fields then Some(fields[key]) else None
    case _ => None
  }
}

/**
 * The browser state the theme code touches: the class lists of the root
 * and body elements, as sets, and localStorage, as a map.
 */
module Dom {
  import opened Wrappers

  /** `localStorage.getItem(key)`: the stored string, or null. */
  function GetItem(storage: map<string, string>, key: string): (r: Option<string>)
    ensures r.Some? <==> key in storage
    ensures r.Some? ==> r.value == storage[key]
  {
    if key in storage then Some(storage[key]) else None
  }

  const Light: string := "light"
  const Dark: string := "dark"
  const ThemeClasses: set<string> := {"light", "dark"}

  /**
   * `classList.remove('light', 'dark')` then `classList.add(name)`: the list
   * holds `name`, no other theme class, and every other class it had.
   */
  function WithThemeClass(classes: set<string>, name: string): (r: set<string>)
    ensures name in r
    ensures forall c :: c in r && c != name ==> c in classes && c !in ThemeClasses
    ensures forall c :: c in classes && c !in ThemeClasses ==> c in r
  {
    classes - ThemeClasses + {name}
  }

  /** After the swap to `light` or `dark`, exactly one theme class is present. */
  lemma ExactlyOneThemeClass(classes: set<string>, name: string)
    requires name in ThemeClasses
    ensures WithThemeClass(classes, name) * ThemeClasses == {name}
  {
  }

  /** A later swap undoes an earlier one completely: only the last theme applied shows. */
  lemma LastSwapWins(classes: set<string>, first: string, second: string)
    requires first in ThemeClasses
    ensures WithThemeClass(WithThemeClass(classes, first), second) == WithThemeClass(classes, second)
  {
  }

  /** ASCII whitespace, which a class token may not contain. */
  predicate IsAsciiWhitespace(c: char) {
    c == ' ' || c == '\t' || c == '\n' || c == '\U{000C}' || c == '\r'
  }

  /** A token `classList.add` accepts: it throws on the empty string and on a token with whitespace in it. */
  predicate IsValidToken(s: string)
    ensures IsValidToken(s) ==> |s| > 0
    ensures s in ThemeClasses ==> IsValidToken(s)
  {
    s != "" && forall i :: 0 <= i < |s| ==> !IsAsciiWhitespace(s[i])
  }
}
