/** The JavaScript values that JSON payloads decode to, and the two lookup
    operators the services use on them: optional chaining `v?.key` and
    nullish coalescing `a ?? b`. */
module Json {
  import opened Wrappers

  /** A JavaScript number: IEEE specials made explicit, finite values as reals. */
  datatype Number = NaN | PosInfinity | NegInfinity | Finite(r: real)

  datatype Json =
    | JNull
    | JBool(b: bool)
    | JNumber(n: Number)
    | JString(s: string)
    | JArray(elems: seq<Json>)
    | JObject(fields: map<string, Json>)

  /** `None` stands for `undefined`; `null` and `undefined` are the nullish values. */
  predicate Nullish(v: Option<Json>) {
    v.None? || v.value.JNull?
  }

  /** `v?.key`: a property of an object; `undefined` for anything else. */
  function Member(v: Option<Json>, key: string): Option<Json> {
    if v.Some? && v.value.JObject? && key in v.value.fields then Some(v.value.fields[key]) else None
  }

  /** `v?.p0?.p1?....`, one optional-chaining step per path element. */
  function Walk(v: Option<Json>, path: seq<string>): Option<Json>
    decreases |path|
  {
    if path == [] then v else Walk(Member(v, path[0]), path[1..])
  }

  function At(root: Json, path: seq<string>): Option<Json> {
    Walk(Some(root), path)
  }

  /** `xs[0] ?? xs[1] ?? ...`: the first value that is neither null nor
      undefined. When every candidate is nullish the result is `None`, which
      every caller in the core treats exactly as it treats `null`. */
  function FirstPresent(xs: seq<Option<Json>>): (r: Option<Json>)
    ensures r.Some? ==> !Nullish(r)
    ensures r.Some? ==> exists i :: 0 <= i < |xs| && xs[i] == r && forall j :: 0 <= j < i ==> Nullish(xs[j])
    ensures r.None? ==> forall i :: 0 <= i < |xs| ==> Nullish(xs[i])
  {
    if xs == [] then None
    else if !Nullish(xs[0]) then xs[0]
    else
      var rest := FirstPresent(xs[1..]);
      assert forall i :: 1 <= i < |xs| ==> xs[i] == xs[1..][i - 1];
      rest
  }

  /** A non-empty string value: `typeof v === 'string' && v.length > 0`. */
  predicate NonEmptyString(v: Option<Json>) {
    v.Some? && v.value.JString? && |v.value.s| > 0
  }
}
