// The browser's localStorage as the front-end scripts use it: an ordered
// list of string entries with distinct keys, read by key or by index, and
// changed by setItem and removeItem. New keys go to the end and removal
// keeps the order of the others (the browser leaves the order to the
// implementation; this is one admissible choice).
module Storage {
  import opened Wrappers

  datatype Entry = Entry(key: string, value: string)

  /** No key occurs twice. */
  predicate DistinctKeys(es: seq<Entry>)
  {
    forall i, j :: 0 <= i < j < |es| ==> es[i].key != es[j].key
  }

  /** Key k occurs nowhere in es. */
  predicate NoKey(es: seq<Entry>, k: string)
  {
    forall i :: 0 <= i < |es| ==> es[i].key != k
  }

  /** getItem: the value of the first entry with key k. */
  function Lookup(es: seq<Entry>, k: string): (r: Option<string>)
    ensures r.None? <==> NoKey(es, k)
  {
    if es == [] then None
    else if es[0].key == k then Some(es[0].value)
    else Lookup(es[1..], k)
  }

  /** removeItem: every entry with key k removed, the others in order. */
  function Drop(es: seq<Entry>, k: string): (r: seq<Entry>)
    ensures |r| <= |es|
    ensures NoKey(r, k)
  {
    if es == [] then []
    else if es[0].key == k then Drop(es[1..], k)
    else [es[0]] + Drop(es[1..], k)
  }

  /** setItem: the entry with key k gets value v in place, or is appended. */
  function Put(es: seq<Entry>, k: string, v: string): (r: seq<Entry>)
    ensures |r| == |es| || |r| == |es| + 1
  {
    if es == [] then [Entry(k, v)]
    else if es[0].key == k then [Entry(k, v)] + es[1..]
    else [es[0]] + Put(es[1..], k, v)
  }

  /** After removeItem(k), k reads as missing and every other key as before. */
  lemma {:induction false} LookupDrop(es: seq<Entry>, k: string, j: string)
    ensures Lookup(Drop(es, k), j) == if j == k then None else Lookup(es, j)
  {
    if es != [] {
      LookupDrop(es[1..], k, j);
    }
  }

  /** After setItem(k, v), k reads as v and every other key as before. */
  lemma {:induction false} LookupPut(es: seq<Entry>, k: string, v: string, j: string)
    ensures Lookup(Put(es, k, v), j) == if j == k then Some(v) else Lookup(es, j)
  {
    if es != [] && es[0].key != k {
      LookupPut(es[1..], k, v, j);
    }
  }

  /** Removing a key that is absent changes nothing. */
  lemma {:induction false} DropAbsent(es: seq<Entry>, k: string)
    requires NoKey(es, k)
    ensures Drop(es, k) == es
  {
    if es != [] {
      DropAbsent(es[1..], k);
    }
  }

  /** Removal distributes over concatenation. */
  lemma {:induction false} DropAppend(a: seq<Entry>, b: seq<Entry>, k: string)
    ensures Drop(a + b, k) == Drop(a, k) + Drop(b, k)
  {
    if a == [] {
      assert a + b == b;
    } else {
      assert (a + b)[0] == a[0];
      assert (a + b)[1..] == a[1..] + b;
      DropAppend(a[1..], b, k);
    }
  }

  /** Removal keeps only entries that were there. */
  lemma {:induction false} DropKeepsNoKey(es: seq<Entry>, k: string, j: string)
    requires NoKey(es, j)
    ensures NoKey(Drop(es, k), j)
  {
    if es != [] {
      DropKeepsNoKey(es[1..], k, j);
    }
  }

  /** Removal keeps the keys distinct. */
  lemma {:induction false} DropDistinct(es: seq<Entry>, k: string)
    requires DistinctKeys(es)
    ensures DistinctKeys(Drop(es, k))
  {
    if es != [] {
      DropDistinct(es[1..], k);
      if es[0].key != k {
        assert NoKey(es[1..], es[0].key);
        DropKeepsNoKey(es[1..], k, es[0].key);
      }
    }
  }

  /** Setting a key keeps every other key's absence. */
  lemma {:induction false} PutKeepsNoKey(es: seq<Entry>, k: string, v: string, j: string)
    requires NoKey(es, j) && j != k
    ensures NoKey(Put(es, k, v), j)
  {
    if es != [] && es[0].key != k {
      PutKeepsNoKey(es[1..], k, v, j);
    }
  }

  /** Setting a key keeps the keys distinct. */
  lemma {:induction false} PutDistinct(es: seq<Entry>, k: string, v: string)
    requires DistinctKeys(es)
    ensures DistinctKeys(Put(es, k, v))
  {
    if es != [] {
      assert NoKey(es[1..], es[0].key);
      if es[0].key != k {
        PutDistinct(es[1..], k, v);
        PutKeepsNoKey(es[1..], k, v, es[0].key);
      }
    }
  }

  class LocalStorage {
    var items: seq<Entry>

    ghost predicate Valid()
      reads this
    {
      DistinctKeys(items)
    }

    constructor()
      ensures Valid() && items == []
    {
      items := [];
    }

    /** localStorage.length */
    function Length(): nat
      reads this
    {
      |items|
    }

    /** localStorage.key(i): null outside the index range. */
    function Key(i: int): Option<string>
      reads this
    {
      if 0 <= i < |items| then Some(items[i].key) else None
    }

    /** localStorage.getItem(k) */
    function GetItem(k: string): Option<string>
      reads this
    {
      Lookup(items, k)
    }

    /** localStorage.setItem(k, v) */
    method SetItem(k: string, v: string)
      requires Valid()
      modifies this
      ensures Valid()
      ensures items == Put(old(items), k, v)
    {
      PutDistinct(items, k, v);
      items := Put(items, k, v);
    }

    /** localStorage.removeItem(k) */
    method RemoveItem(k: string)
      requires Valid()
      modifies this
      ensures Valid()
      ensures items == Drop(old(items), k)
    {
      DropDistinct(items, k);
      items := Drop(items, k);
    }
  }
}
