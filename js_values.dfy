/** JavaScript values as the client receives them from the backend and from
    spreadsheets. An object is kept as its list of entries in key order (the
    order `Object.keys` and `Object.entries` report), so that "in order of first
    appearance" can be stated. */
module JsValues {
  import opened Wrappers

  datatype Json =
    | Null
    | Bool(b: bool)
    | Num(n: int)
    | Str(s: string)
    | Arr(items: seq<Json>)
    | Obj(fields: seq<(string, Json)>)

  type Fields = seq<(string, Json)>

  /** `Object.keys`. */
  function Keys(o: Fields): (ks: seq<string>)
    ensures |ks| == |o|
    ensures forall i :: 0 <= i < |o| ==> ks[i] == o[i].0
  {
    if o == [] then [] else [o[0].0] + Keys(o[1..])
  }

  /** Property read `o[k]`; `None` is `undefined`. */
  function Get(o: Fields, k: string): (r: Option<Json>)
    ensures r.Some? <==> k in Keys(o)
    ensures r.Some? ==> (k, r.value) in o
  {
    if o == [] then None
    else if o[0].0 == k then Some(o[0].1)
    else Get(o[1..], k)
  }

  /** Property write `o[k] = v`: an existing key keeps its place, a new key is
      appended. */
  function Put(o: Fields, k: string, v: Json): (r: Fields)
    ensures Keys(r) == if k in Keys(o) then Keys(o) else Keys(o) + [k]
    ensures Get(r, k) == Some(v)
    ensures forall k' :: k' != k ==> Get(r, k') == Get(o, k')
  {
    if k in Keys(o) then
      ReplaceValue(o, k, v)
    else
      GetAppend(o, k, v);
      assert Keys(o + [(k, v)]) == Keys(o) + [k];
      o + [(k, v)]
  }

  function ReplaceValue(o: Fields, k: string, v: Json): (r: Fields)
    ensures Keys(r) == Keys(o)
    ensures forall k' :: Get(r, k') == if k' == k && k in Keys(o) then Some(v) else Get(o, k')
  {
    if o == [] then []
    else [if o[0].0 == k then (k, v) else o[0]] + ReplaceValue(o[1..], k, v)
  }

  lemma {:induction false} GetAppend(o: Fields, k: string, v: Json)
    ensures forall k' :: Get(o + [(k, v)], k') ==
                         (if k' in Keys(o) then Get(o, k') else if k' == k then Some(v) else None)
  {
    if o != [] {
      assert (o + [(k, v)])[1..] == o[1..] + [(k, v)];
      GetAppend(o[1..], k, v);
    }
  }

  /** JavaScript truthiness of a defined value. */
  predicate Truthy(v: Json) {
    match v
    case Null => false
    case Bool(b) => b
    case Num(n) => n != 0
    case Str(s) => s != ""
    case Arr(_) => true
    case Obj(_) => true
  }

  /** `v || fallback`, with `undefined` as `None`. */
  function OrElse(v: Option<Json>, fallback: Json): (r: Json)
    ensures v.Some? && Truthy(v.value) ==> r == v.value
    ensures !(v.Some? && Truthy(v.value)) ==> r == fallback
  {
    if v.Some? && Truthy(v.value) then v.value else fallback
  }
}
