/**
 * Python dictionaries built by assigning key/value pairs in order.
 * A sequence of entries stands for the assignments `d[k] = v`, one per entry;
 * the dictionary they build keeps the last value written for each key and
 * lists its keys in the order they were first written.
 */
module Dicts {
  import opened Wrappers

  datatype Entry<K, V> = Entry(key: K, value: V)

  /** The keys written by a sequence of assignments. */
  function Keys<K(==), V>(s: seq<Entry<K, V>>): set<K>
    decreases |s|
  {
    if s == [] then {} else Keys(s[..|s| - 1]) + {s[|s| - 1].key}
  }

  /** The value the last assignment to `k` wrote, if any. */
  function Lookup<K(==), V>(s: seq<Entry<K, V>>, k: K): Option<V>
    decreases |s|
  {
    if s == [] then None
    else if s[|s| - 1].key == k then Some(s[|s| - 1].value)
    else Lookup(s[..|s| - 1], k)
  }

  /** The dictionary the assignments build, `d = {}; for k, v in s: d[k] = v`. */
  function ToMap<K(==), V>(s: seq<Entry<K, V>>): map<K, V>
    decreases |s|
  {
    if s == [] then map[] else ToMap(s[..|s| - 1])[s[|s| - 1].key := s[|s| - 1].value]
  }

  /** One more assignment: its key is written, and it wins over earlier ones. */
  lemma Snoc<K, V>(s: seq<Entry<K, V>>, e: Entry<K, V>)
    ensures Keys(s + [e]) == Keys(s) + {e.key}
    ensures ToMap(s + [e]) == ToMap(s)[e.key := e.value]
    ensures forall k :: Lookup(s + [e], k) == if k == e.key then Some(e.value) else Lookup(s, k)
  {
    assert (s + [e])[..|s|] == s;
  }

  /** A key is written exactly when some entry carries it. */
  lemma {:induction false} KeysIndex<K, V>(s: seq<Entry<K, V>>, k: K)
    ensures k in Keys(s) <==> exists i :: 0 <= i < |s| && s[i].key == k
    decreases |s|
  {
    if s != [] {
      var init := s[..|s| - 1];
      KeysIndex(init, k);
      if k in Keys(init) {
        var i :| 0 <= i < |init| && init[i].key == k;
        assert s[i].key == k;
      }
      if exists i :: 0 <= i < |s| && s[i].key == k {
        var i :| 0 <= i < |s| && s[i].key == k;
        if i < |init| {
          assert init[i].key == k;
        }
      }
    }
  }

  /** `Lookup` finds the value of the LAST entry with the key: last write wins. */
  lemma {:induction false} LookupLast<K, V>(s: seq<Entry<K, V>>, k: K)
    ensures Lookup(s, k).Some? <==> k in Keys(s)
    ensures Lookup(s, k).Some? ==>
      exists i :: 0 <= i < |s| && s[i] == Entry(k, Lookup(s, k).value)
        && forall j :: i < j < |s| ==> s[j].key != k
    decreases |s|
  {
    if s != [] {
      var init := s[..|s| - 1];
      LookupLast(init, k);
      if s[|s| - 1].key != k && Lookup(init, k).Some? {
        var i :| 0 <= i < |init| && init[i] == Entry(k, Lookup(init, k).value)
          && forall j :: i < j < |init| ==> init[j].key != k;
        assert s[i] == init[i];
        forall j | i < j < |s|
          ensures s[j].key != k
        {
          if j < |init| {
            assert s[j] == init[j];
          }
        }
      }
    }
  }

  /** The dictionary built holds exactly the written keys, each with its last written value. */
  lemma {:induction false} ToMapLookup<K, V>(s: seq<Entry<K, V>>)
    ensures ToMap(s).Keys == Keys(s)
    ensures forall k :: k in ToMap(s) ==> Lookup(s, k) == Some(ToMap(s)[k])
    decreases |s|
  {
    if s != [] {
      ToMapLookup(s[..|s| - 1]);
    }
  }

  /** The last assignment to a written key, which holds the value the dictionary keeps. */
  lemma LastIndex<K, V>(s: seq<Entry<K, V>>, k: K) returns (i: nat)
    requires k in ToMap(s)
    ensures i < |s| && s[i] == Entry(k, ToMap(s)[k])
    ensures forall j :: i < j < |s| ==> s[j].key != k
  {
    ToMapLookup(s);
    LookupLast(s, k);
    i :| 0 <= i < |s| && s[i] == Entry(k, Lookup(s, k).value)
      && forall j :: i < j < |s| ==> s[j].key != k;
  }

  /** A Python dict: its keys in insertion order, and its contents. */
  datatype OrderedMap<K(==), V> = OrderedMap(order: seq<K>, entries: map<K, V>) {
    /** Each key is listed once, and exactly the keys of the contents are listed. */
    predicate Valid() {
      && (forall i, j :: 0 <= i < j < |order| ==> order[i] != order[j])
      && entries.Keys == (set k | k in order)
    }

    /** `d[k] = v`: a new key goes to the end; an existing key keeps its place and takes the new value. */
    function Put(k: K, v: V): (d: OrderedMap<K, V>)
      requires Valid()
      ensures d.Valid()
      ensures d.entries == entries[k := v]
      ensures k in entries ==> d.order == order
      ensures k !in entries ==> d.order == order + [k]
    {
      if k in entries then OrderedMap(order, entries[k := v]) else OrderedMap(order + [k], entries[k := v])
    }
  }

  /** The dict built by the assignments, with its insertion order. */
  function FromEntries<K(==), V>(s: seq<Entry<K, V>>): (d: OrderedMap<K, V>)
    ensures d.Valid()
    decreases |s|
  {
    if s == [] then OrderedMap([], map[]) else FromEntries(s[..|s| - 1]).Put(s[|s| - 1].key, s[|s| - 1].value)
  }

  /** One more assignment updates the dict built so far. */
  lemma FromEntriesSnoc<K, V>(s: seq<Entry<K, V>>, e: Entry<K, V>)
    ensures FromEntries(s + [e]) == FromEntries(s).Put(e.key, e.value)
  {
    assert (s + [e])[..|s|] == s;
  }

  /** First position of a written key. */
  function FirstIndex<K(==), V>(s: seq<Entry<K, V>>, k: K): (i: nat)
    requires k in Keys(s)
    ensures i < |s| && s[i].key == k && forall j :: 0 <= j < i ==> s[j].key != k
    decreases |s|
  {
    KeysIndex(s, k);
    if s[0].key == k then 0
    else
      assert k in Keys(s[1..]) by {
        var i :| 0 <= i < |s| && s[i].key == k;
        assert s[1..][i - 1] == s[i];
        KeysIndex(s[1..], k);
      }
      1 + FirstIndex(s[1..], k)
  }

  /** The dict built by the assignments holds what `ToMap` holds. */
  lemma {:induction false} FromEntriesContents<K, V>(s: seq<Entry<K, V>>)
    ensures FromEntries(s).entries == ToMap(s)
    ensures FromEntries(s).entries.Keys == Keys(s)
    decreases |s|
  {
    if s != [] {
      FromEntriesContents(s[..|s| - 1]);
    }
  }

  /**
   * The dict built by the assignments lists its keys by first assignment:
   * of two keys, the one assigned first comes first.
   */
  lemma FromEntriesOrder<K, V>(s: seq<Entry<K, V>>)
    ensures FromEntries(s).entries.Keys == Keys(s)
    ensures forall a :: 0 <= a < |FromEntries(s).order| ==> FromEntries(s).order[a] in Keys(s)
    ensures forall a, b :: 0 <= a < b < |FromEntries(s).order| ==>
      FirstIndex(s, FromEntries(s).order[a]) < FirstIndex(s, FromEntries(s).order[b])
  {
    FromEntriesContents(s);
    var d := FromEntries(s);
    assert forall a :: 0 <= a < |d.order| ==> d.order[a] in d.entries;
    forall a, b | 0 <= a < b < |d.order|
      ensures FirstIndex(s, d.order[a]) < FirstIndex(s, d.order[b])
    {
      FromEntriesOrderPair(s, a, b);
    }
  }

  /** Two listed keys, in the order of their first assignments. */
  lemma {:induction false} FromEntriesOrderPair<K, V>(s: seq<Entry<K, V>>, a: nat, b: nat)
    requires a < b < |FromEntries(s).order|
    ensures FromEntries(s).order[a] in Keys(s) && FromEntries(s).order[b] in Keys(s)
    ensures FirstIndex(s, FromEntries(s).order[a]) < FirstIndex(s, FromEntries(s).order[b])
    decreases |s|
  {
    var d := FromEntries(s);
    FromEntriesContents(s);
    assert d.order[a] in d.entries && d.order[b] in d.entries;
    var init := s[..|s| - 1];
    var last := s[|s| - 1];
    var d0 := FromEntries(init);
    FromEntriesContents(init);
    assert d0.order[a] in d0.entries;
    FirstIndexPrefix(init, s, d.order[a]);
    if b < |d0.order| {
      assert d0.order[b] in d0.entries;
      FromEntriesOrderPair(init, a, b);
      FirstIndexPrefix(init, s, d.order[b]);
    } else {
      // the last entry brought a key never written before
      assert d.order[b] == last.key && last.key !in Keys(init);
      KeysIndex(init, last.key);
      assert FirstIndex(s, last.key) == |s| - 1;
    }
  }

  lemma {:induction false} FirstIndexPrefix<K, V>(p: seq<Entry<K, V>>, s: seq<Entry<K, V>>, k: K)
    requires p <= s && k in Keys(p)
    ensures k in Keys(s)
    ensures FirstIndex(s, k) == FirstIndex(p, k)
  {
    KeysIndex(p, k);
    var i :| 0 <= i < |p| && p[i].key == k;
    assert s[i] == p[i];
    KeysIndex(s, k);
    var fp := FirstIndex(p, k);
    assert s[fp] == p[fp];
    var fs := FirstIndex(s, k);
    assert fs <= fp;
    assert p[fs] == s[fs];
  }
}
