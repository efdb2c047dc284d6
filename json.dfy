// Decoded JSON values as the Python views see them: objects keep insertion
// order (Python dicts do), and Python truthiness decides `x or default`.
module Json {
  import opened Wrappers

  datatype Json =
    | JNull
    | JBool(b: bool)
    | JInt(i: int)
    | JFloat(r: real)
    | JStr(s: string)
    | JArr(items: seq<Json>)
    | JObj(entries: seq<(string, Json)>)

  /** Python's bool(x) on a decoded JSON value. */
  predicate Truthy(j: Json)
  {
    match j
    case JNull => false
    case JBool(b) => b
    case JInt(i) => i != 0
    case JFloat(r) => r != 0.0
    case JStr(s) => s != []
    case JArr(xs) => xs != []
    case JObj(es) => es != []
  }

  /** The keys of an object, in insertion order. */
  function Keys(es: seq<(string, Json)>): (ks: seq<string>)
    ensures |ks| == |es|
    ensures forall i :: 0 <= i < |es| ==> ks[i] == es[i].0
  {
    seq(|es|, i requires 0 <= i < |es| => es[i].0)
  }

  /** A Python dict: no key appears twice. */
  predicate UniqueKeys(es: seq<(string, Json)>)
  {
    forall i, j :: 0 <= i < j < |es| ==> es[i].0 != es[j].0
  }

  predicate HasKey(es: seq<(string, Json)>, k: string)
  {
    k in Keys(es)
  }

  /** dict.get(k): the value stored under k, None when k is absent. */
  function Get(es: seq<(string, Json)>, k: string): (r: Option<Json>)
    ensures r.Some? <==> HasKey(es, k)
    ensures r.Some? ==> exists i :: 0 <= i < |es| && es[i] == (k, r.value)
  {
    if es == [] then None
    else if es[0].0 == k then Some(es[0].1)
    else
      var r := Get(es[1..], k);
      assert Keys(es) == [es[0].0] + Keys(es[1..]);
      if r.Some? then
        var i :| 0 <= i < |es[1..]| && es[1..][i] == (k, r.value);
        assert es[i + 1] == (k, r.value);
        r
      else r
  }

  /** x.get(k) when x is a dict; None otherwise. */
  function Member(j: Json, k: string): Option<Json>
  {
    if j.JObj? then Get(j.entries, k) else None
  }

  /** Python `v or default` where v is the result of dict.get. */
  function OrElse(v: Option<Json>, default: Json): (r: Json)
    ensures v.Some? && Truthy(v.value) ==> r == v.value
    ensures (v.None? || !Truthy(v.value)) ==> r == default
  {
    if v.Some? && Truthy(v.value) then v.value else default
  }

  /** In a dict without repeated keys, looking up an entry's key finds that entry. */
  lemma {:induction false} GetUnique(es: seq<(string, Json)>, j: nat)
    requires UniqueKeys(es) && j < |es|
    ensures Get(es, es[j].0) == Some(es[j].1)
  {
    if j > 0 {
      assert es[0].0 != es[j].0;
      assert UniqueKeys(es[1..]) by {
        forall a, b | 0 <= a < b < |es[1..]| ensures es[1..][a].0 != es[1..][b].0 {
          assert es[1..][a] == es[a + 1] && es[1..][b] == es[b + 1];
        }
      }
      GetUnique(es[1..], j - 1);
      assert es[1..][j - 1] == es[j];
    }
  }
}
