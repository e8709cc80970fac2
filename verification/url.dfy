/** The query parameters of the page URL, as `useSearchParams` exposes them. */
module Url {
  import opened Wrappers

  /** One value per parameter name (the components never repeat a name). */
  type Params = map<string, string>

  const SEARCH := "search"
  const CATEGORY := "category"
  const TAG := "tag"

  /** `searchParams.get(key)`: the value, or null when the parameter is absent. */
  function Get(p: Params, key: string): Option<string> {
    if key in p then Some(p[key]) else None
  }

  /** JavaScript truthiness of a string-or-null: present and not empty. */
  predicate Truthy(o: Option<string>) {
    o.Some? && o.value != ""
  }
}
