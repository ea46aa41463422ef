/** The values the builder binds to placeholders, and the
    `Record<string, any>` objects that `insert` and `update` take. */
module Values {

  datatype Option<+T> = None | Some(value: T)

  /** A JavaScript value handed to the driver as a bound parameter (`any`). */
  datatype Value = Null | Bool(b: bool) | Num(n: int) | Str(s: string)

  /** The keys of a field list are pairwise distinct, as an object's are. */
  ghost predicate DistinctKeys(fv: seq<(string, Value)>)
  {
    forall i, j :: 0 <= i < j < |fv| ==> fv[i].0 != fv[j].0
  }

  /** `Record<string, any>`: the object's own properties in the order
      `Object.keys` and `Object.values` both enumerate them. */
  type Record = fv: seq<(string, Value)> | DistinctKeys(fv) witness []

  /** `Object.keys(fv)`. */
  function Keys(fv: Record): (ks: seq<string>)
    ensures |ks| == |fv| && forall i :: 0 <= i < |fv| ==> ks[i] == fv[i].0
  {
    if fv == [] then [] else [fv[0].0] + Keys(fv[1..])
  }

  /** `Object.values(fv)`. */
  function Vals(fv: Record): (vs: seq<Value>)
    ensures |vs| == |fv| && forall i :: 0 <= i < |fv| ==> vs[i] == fv[i].1
  {
    if fv == [] then [] else [fv[0].1] + Vals(fv[1..])
  }
}
