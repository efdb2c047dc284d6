// The storage key contract of the estimator pages (app/static/js/keys.js):
// every page reads and writes its browser state under "ee.<eid>." for a
// saved estimate and "ee.FAST." for fast, unsaved mode, and hardReset
// clears both namespaces.
//
// The page URL's eid query parameter is a parameter (None when it is
// absent); the fallback taken when reading the URL throws is the same key
// set as the no-eid case, with eid null.
module Keys {
  import opened Wrappers
  import opened Text
  import opened Storage

  datatype NsKeys = NsKeys(
    eid: Option<string>,
    ns: string,
    gridKey: string,
    totalsKey: string,
    estimateDataKey: string)

  /** `eid ? ... : ...`: an empty eid is falsy, like a missing one. */
  predicate HasEid(eid: Option<string>)
  {
    eid.Some? && eid.value != ""
  }

  /** The name between "ee." and the next dot. */
  function Space(eid: Option<string>): string
  {
    if HasEid(eid) then eid.value else "FAST"
  }

  /** nsKeys(): the namespace and the three keys under it. */
  function KeysFor(eid: Option<string>): (k: NsKeys)
    ensures k.eid == eid
    ensures k.ns == "ee." + Space(eid) + "."
    ensures StartsWith(k.gridKey, k.ns) && StartsWith(k.totalsKey, k.ns)
    ensures StartsWith(k.estimateDataKey, k.ns)
  {
    var ns := if HasEid(eid) then "ee." + eid.value + "." else "ee.FAST.";
    NsKeys(eid, ns, ns + "grid.v1", ns + "totals", ns + "estimateData")
  }

  function KeySet(k: NsKeys): set<string>
  {
    {k.gridKey, k.totalsKey, k.estimateDataKey}
  }

  /** The inverse of KeysFor on its keys: the namespace name read back
      from a key, the suffix being told by the key's last letter. */
  function SpaceOfKey(k: string): string
  {
    var n := if k != [] && k[|k| - 1] == '1' then |"grid.v1"|
             else if k != [] && k[|k| - 1] == 's' then |"totals"|
             else |"estimateData"|;
    if |k| < 4 + n then "" else k[3..|k| - 1 - n]
  }

  lemma SpaceOfKeyInverse(eid: Option<string>, k: string)
    ensures k in KeySet(KeysFor(eid)) ==> SpaceOfKey(k) == Space(eid)
  {
    var ks := KeysFor(eid);
    if k == ks.gridKey {
      SpaceOfKeyWith(Space(eid), "grid.v1");
    } else if k == ks.totalsKey {
      SpaceOfKeyWith(Space(eid), "totals");
    } else if k == ks.estimateDataKey {
      SpaceOfKeyWith(Space(eid), "estimateData");
    }
  }

  lemma SpaceOfKeyWith(sp: string, suffix: string)
    requires suffix == "grid.v1" || suffix == "totals" || suffix == "estimateData"
    ensures SpaceOfKey("ee." + sp + "." + suffix) == sp
  {
    var k := "ee." + sp + "." + suffix;
    assert k[|k| - 1] == suffix[|suffix| - 1];
    assert k[3..|k| - 1 - |suffix|] == sp;
  }

  /** Two key sets are disjoint exactly when their namespace names differ;
      in particular the eid "FAST" shares the fast-mode keys. */
  lemma KeySetsDisjoint(a: Option<string>, b: Option<string>)
    ensures KeySet(KeysFor(a)) * KeySet(KeysFor(b)) == {} <==> Space(a) != Space(b)
  {
    if Space(a) == Space(b) {
      assert KeysFor(a).gridKey == KeysFor(b).gridKey;
      assert KeysFor(a).gridKey in KeySet(KeysFor(a)) * KeySet(KeysFor(b));
    } else {
      forall k | k in KeySet(KeysFor(a))
        ensures k !in KeySet(KeysFor(b))
      {
        SpaceOfKeyInverse(a, k);
        SpaceOfKeyInverse(b, k);
      }
      assert forall k :: k !in KeySet(KeysFor(a)) * KeySet(KeysFor(b));
    }
  }

  /** The exact keys hardReset removes first: the current keys, the fast
      keys, the legacy bare key, and the eid keys when an eid is present. */
  function Targets(eid: Option<string>): (ts: seq<string>)
    ensures forall t :: t in KeySet(KeysFor(eid)) ==> t in ts
    ensures forall t :: t in KeySet(KeysFor(None)) ==> t in ts
    ensures "estimateData" in ts
  {
    // f's keys are "ee.FAST.grid.v1", "ee.FAST.totals", "ee.FAST.estimateData"
    var k, f := KeysFor(eid), KeysFor(None);
    [k.gridKey, k.totalsKey, k.estimateDataKey,
     f.gridKey, f.totalsKey, f.estimateDataKey,
     "estimateData"]
    + (if HasEid(eid)
       then ["ee." + eid.value + ".grid.v1", "ee." + eid.value + ".totals",
             "ee." + eid.value + ".estimateData"]
       else [])
  }

  /** The namespaces hardReset sweeps. */
  function Prefixes(eid: Option<string>): (ps: seq<string>)
    ensures "ee.FAST." in ps
    ensures HasEid(eid) ==> "ee." + eid.value + "." in ps
    ensures forall p :: p in ps ==> p == "ee.FAST." || (HasEid(eid) && p == "ee." + eid.value + ".")
  {
    ["ee.FAST."] + (if HasEid(eid) then ["ee." + eid.value + "."] else [])
  }

  predicate UnderAny(k: string, ps: seq<string>)
  {
    exists i :: 0 <= i < |ps| && StartsWith(k, ps[i])
  }

  /** Every removeItem of ks, in order. */
  function DropAll(es: seq<Entry>, ks: seq<string>): seq<Entry>
  {
    if ks == [] then es else Drop(DropAll(es, ks[..|ks| - 1]), ks[|ks| - 1])
  }

  /** The entries the namespace sweep keeps: an empty key is skipped, and a
      key under one of the prefixes is removed. */
  function Sweep(es: seq<Entry>, ps: seq<string>): (r: seq<Entry>)
    ensures forall i :: 0 <= i < |r| ==> r[i].key == "" || !UnderAny(r[i].key, ps)
  {
    if es == [] then []
    else if es[0].key != "" && UnderAny(es[0].key, ps) then Sweep(es[1..], ps)
    else [es[0]] + Sweep(es[1..], ps)
  }

  /** The storage that hardReset leaves behind. */
  function HardResetResult(es: seq<Entry>, eid: Option<string>): seq<Entry>
  {
    Sweep(DropAll(es, Targets(eid)), Prefixes(eid))
  }

  /** hardReset(): remove the explicit targets, then sweep the storage from
      the last index down, removing every key under a swept namespace. */
  method HardReset(ls: LocalStorage, eid: Option<string>)
    requires ls.Valid()
    modifies ls
    ensures ls.Valid()
    ensures ls.items == HardResetResult(old(ls.items), eid)
  {
    RemoveTargets(ls, Targets(eid));
    SweepNamespaces(ls, Prefixes(eid));
  }

  /** `for (const k of targets) localStorage.removeItem(k)` */
  method RemoveTargets(ls: LocalStorage, targets: seq<string>)
    requires ls.Valid()
    modifies ls
    ensures ls.Valid()
    ensures ls.items == DropAll(old(ls.items), targets)
  {
    var j := 0;
    while j < |targets|
      invariant 0 <= j <= |targets|
      invariant ls.Valid()
      invariant ls.items == DropAll(old(ls.items), targets[..j])
    {
      ls.RemoveItem(targets[j]);
      assert targets[..j + 1][..j] == targets[..j];
      j := j + 1;
    }
    assert targets[..j] == targets;
  }

  /** The backwards index loop that removes every non-empty key under one
      of the prefixes. */
  method SweepNamespaces(ls: LocalStorage, prefixes: seq<string>)
    requires ls.Valid()
    modifies ls
    ensures ls.Valid()
    ensures ls.items == Sweep(old(ls.items), prefixes)
  {
    ghost var mid := ls.items;
    var i := ls.Length() - 1;
    while i >= 0
      invariant -1 <= i < |mid|
      invariant ls.Valid()
      invariant ls.items == mid[..i + 1] + Sweep(mid[i + 1..], prefixes)
    {
      var key := ls.Key(i);
      assert ls.items[i] == mid[i];
      assert mid[i..][1..] == mid[i + 1..];
      if key.Some? && key.value != "" && UnderAny(key.value, prefixes) {
        assert mid[..i + 1] == mid[..i] + [mid[i]];
        RemoveBetween(mid, i, Sweep(mid[i + 1..], prefixes), prefixes);
        ls.RemoveItem(key.value);
      }
      i := i - 1;
    }
    assert mid[..0] == [] && mid[0..] == mid;
  }

  /** Removing the key of mid[i] from mid[..i+1] + rest, where rest holds
      only entries of mid after i, takes out exactly that entry. */
  lemma RemoveBetween(mid: seq<Entry>, i: int, rest: seq<Entry>, ps: seq<string>)
    requires DistinctKeys(mid) && 0 <= i < |mid|
    requires rest == Sweep(mid[i + 1..], ps)
    ensures Drop(mid[..i] + [mid[i]] + rest, mid[i].key) == mid[..i] + rest
  {
    var k := mid[i].key;
    var before, after := mid[..i], mid[i + 1..];
    assert NoKey(before, k) by {
      forall j | 0 <= j < |before| ensures before[j].key != k {
        assert before[j] == mid[j];
      }
    }
    assert NoKey(after, k) by {
      forall j | 0 <= j < |after| ensures after[j].key != k {
        assert after[j] == mid[i + 1 + j];
      }
    }
    SweepKeepsNoKey(after, ps, k);
    DropAppend(before + [mid[i]], rest, k);
    DropAppend(before, [mid[i]], k);
    DropAbsent(before, k);
    DropAbsent(rest, k);
    assert Drop([mid[i]], k) == [] by {
      assert [mid[i]][1..] == [];
    }
    assert Drop(before + [mid[i]], k) == before;
  }

  lemma {:induction false} SweepKeepsNoKey(es: seq<Entry>, ps: seq<string>, k: string)
    requires NoKey(es, k)
    ensures NoKey(Sweep(es, ps), k)
  {
    if es != [] {
      SweepKeepsNoKey(es[1..], ps, k);
    }
  }

  lemma {:induction false} LookupSweep(es: seq<Entry>, ps: seq<string>, k: string)
    ensures Lookup(Sweep(es, ps), k) == if k != "" && UnderAny(k, ps) then None else Lookup(es, k)
  {
    if es != [] {
      LookupSweep(es[1..], ps, k);
    }
  }

  lemma {:induction false} LookupDropAll(es: seq<Entry>, ks: seq<string>, k: string)
    ensures Lookup(DropAll(es, ks), k) == if k in ks then None else Lookup(es, k)
  {
    if ks != [] {
      var init, last := ks[..|ks| - 1], ks[|ks| - 1];
      assert (k in ks) == (k in init || k == last) by {
        assert ks == init + [last];
      }
      LookupDropAll(es, init, k);
      LookupDrop(DropAll(es, init), last, k);
    }
  }

  /** After hardReset a key reads as missing exactly when it was a target
      or lies under a swept namespace; every other key keeps its value. */
  lemma HardResetLookup(es: seq<Entry>, eid: Option<string>, k: string)
    ensures Lookup(HardResetResult(es, eid), k)
         == if k in Targets(eid) || (k != "" && UnderAny(k, Prefixes(eid))) then None
            else Lookup(es, k)
  {
    LookupSweep(DropAll(es, Targets(eid)), Prefixes(eid), k);
    LookupDropAll(es, Targets(eid), k);
  }

  /** After hardReset no key starts with "ee.FAST.", nor with "ee.<eid>."
      when an eid is present; the fast keys, the eid keys and the legacy
      key are gone. */
  lemma HardResetClears(es: seq<Entry>, eid: Option<string>)
    ensures forall e :: e in HardResetResult(es, eid) ==> !StartsWith(e.key, "ee.FAST.")
    ensures HasEid(eid) ==>
      forall e :: e in HardResetResult(es, eid) ==> !StartsWith(e.key, "ee." + eid.value + ".")
    ensures Lookup(HardResetResult(es, eid), "estimateData").None?
    ensures forall t :: t in KeySet(KeysFor(eid)) ==> Lookup(HardResetResult(es, eid), t).None?
    ensures forall t :: t in KeySet(KeysFor(None)) ==> Lookup(HardResetResult(es, eid), t).None?
  {
    var r := HardResetResult(es, eid);
    var ps := Prefixes(eid);
    assert ps[0] == "ee.FAST.";
    forall e | e in r
      ensures !StartsWith(e.key, "ee.FAST.")
      ensures HasEid(eid) ==> !StartsWith(e.key, "ee." + eid.value + ".")
    {
      if HasEid(eid) {
        assert ps[1] == "ee." + eid.value + ".";
      }
    }
    forall t | t == "estimateData" || t in KeySet(KeysFor(eid)) || t in KeySet(KeysFor(None))
      ensures Lookup(r, t).None?
    {
      HardResetLookup(es, eid, t);
    }
  }

  /** A key outside the targets and the swept namespaces survives hardReset
      with its value. */
  lemma HardResetKeepsOthers(es: seq<Entry>, eid: Option<string>, k: string)
    requires k !in Targets(eid)
    requires !StartsWith(k, "ee.FAST.")
    requires !(HasEid(eid) && StartsWith(k, "ee." + eid.value + "."))
    ensures Lookup(HardResetResult(es, eid), k) == Lookup(es, k)
  {
    HardResetLookup(es, eid, k);
  }

  /** The functions the script installs on window, told apart by the
      script instance that defined them. */
  datatype Installed = NsKeysFn(script: nat) | HardResetFn(script: nat)

  class Window {
    var nsKeys: Option<Installed>
    var eeNsKeys: Option<Installed>
    var eeHardReset: Option<Installed>

    constructor()
      ensures nsKeys.None? && eeNsKeys.None? && eeHardReset.None?
    {
      nsKeys, eeNsKeys, eeHardReset := None, None, None;
    }

    /** Loading the script: when window.nsKeys is already set, nothing
        changes; otherwise nsKeys, ee.nsKeys and ee.hardReset are set. */
    method Install(script: nat)
      modifies this
      ensures old(nsKeys).Some? ==>
        nsKeys == old(nsKeys) && eeNsKeys == old(eeNsKeys) && eeHardReset == old(eeHardReset)
      ensures old(nsKeys).None? ==>
        nsKeys == Some(NsKeysFn(script)) && eeNsKeys == Some(NsKeysFn(script))
        && eeHardReset == Some(HardResetFn(script))
    {
      if nsKeys.Some? {
        return;
      }
      nsKeys := Some(NsKeysFn(script));
      eeNsKeys := Some(NsKeysFn(script));
      eeHardReset := Some(HardResetFn(script));
    }
  }
}
