/**
 * The ordered map keyed by byte strings (`BTreeMap<Vec<u8>, V>`) that the
 * one-of-N proof uses to put candidates in a canonical order.  A map is a
 * sequence of entries whose keys are strictly increasing in the
 * lexicographic order; iterating the map is walking the sequence.
 */
module OrderedMap {
  import opened Bytes

  type Key = seq<byte>

  datatype Entry<V> = Entry(key: Key, value: V)

  ghost predicate Sorted<V>(m: seq<Entry<V>>) {
    forall i, j :: 0 <= i < j < |m| ==> Less(m[i].key, m[j].key)
  }

  function Keys<V>(m: seq<Entry<V>>): set<Key> {
    set i | 0 <= i < |m| :: m[i].key
  }

  /** The abstract map an entry sequence denotes. */
  function ToMap<V>(m: seq<Entry<V>>): map<Key, V> {
    if m == [] then map[] else ToMap(m[1..])[m[0].key := m[0].value]
  }

  /** `BTreeMap::insert`: a new key goes to its ordered position, an existing key has its value replaced. */
  function Insert<V>(m: seq<Entry<V>>, k: Key, v: V): seq<Entry<V>>
    decreases |m|
  {
    if m == [] then [Entry(k, v)]
    else if k == m[0].key then [Entry(k, v)] + m[1..]
    else if Less(k, m[0].key) then [Entry(k, v)] + m
    else [m[0]] + Insert(m[1..], k, v)
  }

  lemma KeysTail<V>(m: seq<Entry<V>>)
    requires m != []
    ensures Keys(m) == {m[0].key} + Keys(m[1..])
  {
    forall k | k in Keys(m) ensures k in {m[0].key} + Keys(m[1..]) {
      var i :| 0 <= i < |m| && m[i].key == k;
      if i > 0 {
        assert m[1..][i - 1].key == k;
      }
    }
    forall k | k in Keys(m[1..]) ensures k in Keys(m) {
      var i :| 0 <= i < |m[1..]| && m[1..][i].key == k;
      assert m[i + 1].key == k;
    }
  }

  lemma {:induction false} ToMapKeys<V>(m: seq<Entry<V>>)
    ensures ToMap(m).Keys == Keys(m)
    decreases |m|
  {
    if m != [] {
      ToMapKeys(m[1..]);
      KeysTail(m);
    }
  }

  /** In a sorted map the i-th entry is what the abstract map holds for its key. */
  lemma {:induction false} ToMapAt<V>(m: seq<Entry<V>>, i: nat)
    requires Sorted(m) && i < |m|
    ensures m[i].key in ToMap(m) && ToMap(m)[m[i].key] == m[i].value
    decreases |m|
  {
    ToMapKeys(m);
    assert m[i].key in Keys(m);
    if i > 0 {
      ToMapAt(m[1..], i - 1);
      assert Less(m[0].key, m[i].key);
      LessIrreflexive(m[0].key);
    }
  }

  lemma {:induction false} InsertKeys<V>(m: seq<Entry<V>>, k: Key, v: V)
    ensures Keys(Insert(m, k, v)) == Keys(m) + {k}
    decreases |m|
  {
    var r := Insert(m, k, v);
    assert r[0] in r;
    KeysTail(r);
    if m != [] {
      KeysTail(m);
      if k == m[0].key {
        assert r[1..] == m[1..];
      } else if Less(k, m[0].key) {
        assert r[1..] == m;
      } else {
        InsertKeys(m[1..], k, v);
        assert r[1..] == Insert(m[1..], k, v);
      }
    }
  }

  lemma {:induction false} InsertToMap<V>(m: seq<Entry<V>>, k: Key, v: V)
    ensures ToMap(Insert(m, k, v)) == ToMap(m)[k := v]
    decreases |m|
  {
    var r := Insert(m, k, v);
    if m != [] {
      if k == m[0].key {
        assert r[1..] == m[1..];
      } else if Less(k, m[0].key) {
        assert r[1..] == m;
      } else {
        InsertToMap(m[1..], k, v);
        assert r[1..] == Insert(m[1..], k, v);
      }
    }
  }

  lemma InsertSortedReplace<V>(m: seq<Entry<V>>, k: Key, v: V)
    requires Sorted(m) && m != [] && k == m[0].key
    ensures Sorted(Insert(m, k, v))
  {
    var r := Insert(m, k, v);
    forall i, j | 0 <= i < j < |r| ensures Less(r[i].key, r[j].key) {
      assert r[j] == m[j];
      if i > 0 {
        assert r[i] == m[i];
      }
    }
  }

  lemma InsertSortedFront<V>(m: seq<Entry<V>>, k: Key, v: V)
    requires Sorted(m) && m != [] && Less(k, m[0].key)
    ensures Sorted(Insert(m, k, v))
  {
    var r := Insert(m, k, v);
    LessIrreflexive(k);
    assert r == [Entry(k, v)] + m;
    forall i, j | 0 <= i < j < |r| ensures Less(r[i].key, r[j].key) {
      assert r[j] == m[j - 1];
      if i > 0 {
        assert r[i] == m[i - 1];
      } else if j > 1 {
        LessTransitive(k, m[0].key, m[j - 1].key);
      }
    }
  }

  /** Every key of the map inserted into the tail lies above the first key. */
  lemma InsertTailAbove<V>(m: seq<Entry<V>>, k: Key, v: V)
    requires Sorted(m) && m != [] && Less(m[0].key, k)
    ensures forall j :: 0 <= j < |Insert(m[1..], k, v)| ==> Less(m[0].key, Insert(m[1..], k, v)[j].key)
  {
    InsertKeys(m[1..], k, v);
    var t := Insert(m[1..], k, v);
    forall j | 0 <= j < |t| ensures Less(m[0].key, t[j].key) {
      assert t[j].key in Keys(t);
      if t[j].key != k {
        var i :| 0 <= i < |m[1..]| && m[1..][i].key == t[j].key;
        assert m[i + 1] == m[1..][i];
      }
    }
  }

  lemma {:induction false} InsertSorted<V>(m: seq<Entry<V>>, k: Key, v: V)
    requires Sorted(m)
    ensures Sorted(Insert(m, k, v))
    decreases |m|
  {
    if m == [] {
    } else if k == m[0].key {
      InsertSortedReplace(m, k, v);
    } else if Less(k, m[0].key) {
      InsertSortedFront(m, k, v);
    } else {
      LessTotal(k, m[0].key);
      SortedTail(m);
      InsertSorted(m[1..], k, v);
      InsertTailAbove(m, k, v);
      var r := Insert(m, k, v);
      var t := Insert(m[1..], k, v);
      assert r == [m[0]] + t;
      forall i, j | 0 <= i < j < |r| ensures Less(r[i].key, r[j].key) {
        assert r[j] == t[j - 1];
        if i > 0 {
          assert r[i] == t[i - 1];
        }
      }
    }
  }

  lemma {:induction false} InsertSize<V>(m: seq<Entry<V>>, k: Key, v: V)
    requires Sorted(m)
    ensures |Insert(m, k, v)| == if k in Keys(m) then |m| else |m| + 1
    decreases |m|
  {
    if m != [] {
      KeysTail(m);
      if k == m[0].key {
      } else if Less(k, m[0].key) {
        if k in Keys(m[1..]) {
          var i :| 0 <= i < |m[1..]| && m[1..][i].key == k;
          assert Less(m[0].key, m[i + 1].key);
          LessAsymmetric(k, m[0].key);
        }
      } else {
        SortedTail(m);
        InsertSize(m[1..], k, v);
      }
    }
  }

  /** Everything `BTreeMap::insert` promises, for a map in canonical form. */
  lemma InsertProperties<V>(m: seq<Entry<V>>, k: Key, v: V)
    requires Sorted(m)
    ensures Sorted(Insert(m, k, v))
    ensures ToMap(Insert(m, k, v)) == ToMap(m)[k := v]
    ensures Keys(Insert(m, k, v)) == Keys(m) + {k}
    ensures |Insert(m, k, v)| == if k in Keys(m) then |m| else |m| + 1
  {
    InsertSorted(m, k, v);
    InsertToMap(m, k, v);
    InsertKeys(m, k, v);
    InsertSize(m, k, v);
  }

  lemma SortedTail<V>(m: seq<Entry<V>>)
    requires Sorted(m) && m != []
    ensures Sorted(m[1..])
  {
    forall i, j | 0 <= i < j < |m[1..]| ensures Less(m[1..][i].key, m[1..][j].key) {
      assert m[1..][i] == m[i + 1] && m[1..][j] == m[j + 1];
    }
  }

  /** The first key of a sorted map does not occur in its tail. */
  lemma SortedTailKey<V>(m: seq<Entry<V>>)
    requires Sorted(m) && m != []
    ensures m[0].key !in Keys(m[1..])
  {
    if m[0].key in Keys(m[1..]) {
      var i :| 0 <= i < |m[1..]| && m[1..][i].key == m[0].key;
      assert Less(m[0].key, m[i + 1].key);
      LessIrreflexive(m[0].key);
    }
  }

  lemma FirstKeyIn<V>(m: seq<Entry<V>>)
    ensures m != [] ==> m[0].key in Keys(m)
  {
  }

  /** Two sorted sequences denoting the same map start with the same entry. */
  lemma SameFirstEntry<V>(m1: seq<Entry<V>>, m2: seq<Entry<V>>)
    requires Sorted(m1) && Sorted(m2) && m1 != [] && m2 != []
    requires ToMap(m1) == ToMap(m2)
    ensures m1[0] == m2[0]
  {
    ToMapKeys(m1);
    ToMapKeys(m2);
    FirstKeyIn(m1);
    FirstKeyIn(m2);
    assert m1[0].key in Keys(m2) && m2[0].key in Keys(m1);
    var i :| 0 <= i < |m2| && m2[i].key == m1[0].key;
    var j :| 0 <= j < |m1| && m1[j].key == m2[0].key;
    if m1[0].key != m2[0].key {
      assert i > 0 && j > 0;
      assert Less(m2[0].key, m1[0].key) && Less(m1[0].key, m2[0].key);
      LessAsymmetric(m2[0].key, m1[0].key);
    }
    ToMapAt(m1, 0);
    ToMapAt(m2, 0);
  }

  /** The tail of a sorted sequence denotes the map without the first key. */
  lemma TailMap<V>(m: seq<Entry<V>>)
    requires Sorted(m) && m != []
    ensures Sorted(m[1..])
    ensures ToMap(m[1..]) == ToMap(m) - {m[0].key}
  {
    SortedTail(m);
    SortedTailKey(m);
    ToMapKeys(m[1..]);
    var t := ToMap(m[1..]);
    assert m[0].key !in t;
    assert ToMap(m) == t[m[0].key := m[0].value];
    assert t[m[0].key := m[0].value] - {m[0].key} == t;
  }

  /**
   * Canonical order: two sorted entry sequences that denote the same map are
   * the same sequence, whatever order the entries were inserted in.
   */
  lemma {:induction false} Canonical<V>(m1: seq<Entry<V>>, m2: seq<Entry<V>>)
    requires Sorted(m1) && Sorted(m2)
    requires ToMap(m1) == ToMap(m2)
    ensures m1 == m2
    decreases |m1|
  {
    ToMapKeys(m1);
    ToMapKeys(m2);
    FirstKeyIn(m1);
    FirstKeyIn(m2);
    if m1 != [] && m2 != [] {
      SameFirstEntry(m1, m2);
      TailMap(m1);
      TailMap(m2);
      Canonical(m1[1..], m2[1..]);
      assert m1 == [m1[0]] + m1[1..] && m2 == [m2[0]] + m2[1..];
    }
  }

  /** Inserting a key that is not yet present adds exactly one entry. */
  lemma {:induction false} InsertFresh<V>(m: seq<Entry<V>>, k: Key, v: V)
    requires k !in Keys(m)
    ensures multiset(Insert(m, k, v)) == multiset(m) + multiset{Entry(k, v)}
    decreases |m|
  {
    if m != [] {
      KeysTail(m);
      if !Less(k, m[0].key) {
        InsertFresh(m[1..], k, v);
        assert m == [m[0]] + m[1..];
      }
    }
  }
}
