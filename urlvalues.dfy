/** Go's net/url.Values: a map from a query key to the list of its values. */
module UrlValues {

  type Values = map<string, seq<string>>

  /** Values.Set: the key ends up holding exactly the one given value; every other key is kept. */
  function Set(v: Values, key: string, value: string): (r: Values)
    ensures r.Keys == v.Keys + {key}
    ensures r[key] == [value]
    ensures forall k :: k in v && k != key ==> r[k] == v[k]
  {
    v[key := [value]]
  }

  /** Values.Add: the value is appended to whatever the key already holds. */
  function Add(v: Values, key: string, value: string): (r: Values)
    ensures r.Keys == v.Keys + {key}
    ensures key in v ==> r[key] == v[key] + [value]
    ensures key !in v ==> r[key] == [value]
    ensures forall k :: k in v && k != key ==> r[k] == v[k]
  {
    v[key := (if key in v then v[key] else []) + [value]]
  }

  /** Every key present holds exactly one value. */
  predicate SingleValued(v: Values)
  {
    forall k :: k in v ==> |v[k]| == 1
  }
}
