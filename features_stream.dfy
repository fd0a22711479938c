/** The features service's record shaping before the feature-store sink. */
module FeaturesStream {
  import opened Json

  /** `replace_none_with_zero`: every None value becomes 0, every other value is kept. */
  function ReplaceNoneWithZero(f: map<string, Json>): (r: map<string, Json>)
    ensures r.Keys == f.Keys
    ensures forall k :: k in r ==> r[k] != JNull
    ensures forall k :: k in f && f[k] == JNull ==> r[k] == JInt(0)
    ensures forall k :: k in f && f[k] != JNull ==> r[k] == f[k]
  {
    map k | k in f :: if f[k] == JNull then JInt(0) else f[k]
  }

  lemma ReplaceNoneWithZeroIdempotent(f: map<string, Json>)
    ensures ReplaceNoneWithZero(ReplaceNoneWithZero(f)) == ReplaceNoneWithZero(f)
  {
  }

  /** Only None is replaced: other falsy values (false, 0.0, "") pass through. */
  lemma FalsyValuesKept(f: map<string, Json>, k: string)
    requires k in f && f[k] in {JBool(false), JFloat(0.0), JStr("")}
    ensures ReplaceNoneWithZero(f)[k] == f[k]
  {
  }
}
