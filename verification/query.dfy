/** URL query parameters: a key maps to a list of values, as in Go's url.Values. */
module Query {

  type Values = map<string, seq<string>>

  /** Values.Set: replaces whatever the key held by the single value given. */
  function SetValue(v: Values, key: string, value: string): (r: Values)
    ensures r.Keys == v.Keys + {key}
    ensures key in r && r[key] == [value]
    ensures forall k :: k in v && k != key ==> k in r && r[k] == v[k]
  {
    v[key := [value]]
  }

  /** Values.Get: the first value of a key, or "" when the key has none. */
  function GetValue(v: Values, key: string): string {
    if key in v && |v[key]| > 0 then v[key][0] else ""
  }

  /** Setting a key and reading it back yields the value that was set. */
  lemma GetAfterSet(v: Values, key: string, value: string)
    ensures GetValue(SetValue(v, key, value), key) == value
  {
  }
}
