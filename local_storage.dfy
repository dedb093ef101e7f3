/** The browser's `localStorage`, reduced to the two credential keys static/js/app.js uses. */
module LocalStorage {
  import opened Wrappers

  type Store = map<string, string>

  const PsidKey: string := "gemini_psid"
  const PsidtsKey: string := "gemini_psidts"

  /** `localStorage.getItem(key)`: `null` for a missing key. */
  function GetItem(store: Store, key: string): (r: Option<string>)
    ensures r.None? <==> key !in store
    ensures r.Some? ==> r.value == store[key]
  {
    if key in store then Some(store[key]) else None
  }

  /** A value JavaScript treats as true in `if (v)`: present and not the empty string. */
  predicate Truthy(v: Option<string>) {
    v.Some? && v.value != ""
  }
}
