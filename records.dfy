/**
 * JavaScript objects used as dictionaries (`Record<string, V>`): their entries in
 * insertion order; assigning to an existing key keeps its position. `Object.keys`,
 * `Object.entries` and `JSON.stringify` list the keys that are array indices ("0", "7",
 * "2020") first, in ascending numeric order, and then the other keys in insertion order
 * (`OwnKeys`, section 10.1.11.1 of ECMA-262, OrdinaryOwnPropertyKeys).
 */
module Records {
  import opened Options
  import opened Text
  import opened Sorting

  datatype Entry<V> = Entry(key: string, value: V)

  type Record<V> = seq<Entry<V>>

  function Keys<V>(r: Record<V>): (ks: seq<string>)
    ensures |ks| == |r|
    ensures forall i :: 0 <= i < |r| ==> ks[i] == r[i].key
  {
    if |r| == 0 then [] else [r[0].key] + Keys(r[1..])
  }

  function KeySet<V>(r: Record<V>): set<string> {
    if |r| == 0 then {} else {r[0].key} + KeySet(r[1..])
  }

  /** The keys of a record are the keys of its entries. */
  lemma {:induction false} KeySetIndex<V>(r: Record<V>, k: string)
    ensures k in KeySet(r) <==> exists i :: 0 <= i < |r| && r[i].key == k
  {
    if |r| > 0 {
      KeySetIndex(r[1..], k);
      if k in KeySet(r[1..]) {
        var i :| 0 <= i < |r[1..]| && r[1..][i].key == k;
        assert r[i + 1].key == k;
      }
      if exists i :: 0 <= i < |r| && r[i].key == k {
        var i :| 0 <= i < |r| && r[i].key == k;
        if i > 0 {
          assert r[1..][i - 1].key == k;
        }
      }
    }
  }

  lemma KeySetCons<V>(r: Record<V>)
    requires |r| > 0
    ensures KeySet(r) == {r[0].key} + KeySet(r[1..])
  {
  }

  predicate DistinctKeys<V>(r: Record<V>) {
    forall i, j :: 0 <= i < j < |r| ==> r[i].key != r[j].key
  }

  /** `r[k]`: the value stored under `k`, or `None` for `undefined`. */
  function Get<V>(r: Record<V>, k: string): (v: Option<V>)
    ensures v.None? <==> k !in KeySet(r)
  {
    if |r| == 0 then None
    else if r[0].key == k then Some(r[0].value)
    else
      KeySetCons(r);
      Get(r[1..], k)
  }

  /** A value read from a record is stored in one of its entries under that key. */
  lemma {:induction false} GetStored<V>(r: Record<V>, k: string)
    requires Get(r, k).Some?
    ensures exists i :: 0 <= i < |r| && r[i] == Entry(k, Get(r, k).value)
  {
    if r[0].key != k {
      GetStored(r[1..], k);
      var i :| 0 <= i < |r[1..]| && r[1..][i] == Entry(k, Get(r, k).value);
      assert r[i + 1] == Entry(k, Get(r, k).value);
    }
  }

  /** The stored entry of a key, in a record with distinct keys. */
  lemma GetAt<V>(r: Record<V>, i: nat)
    requires DistinctKeys(r) && i < |r|
    ensures Get(r, r[i].key) == Some(r[i].value)
  {
    if i > 0 {
      GetAt(r[1..], i - 1);
    }
  }

  /** `r[k] = v`: overwrites the value of an existing key in place, or appends a new entry. */
  function Put<V>(r: Record<V>, k: string, v: V): (r': Record<V>)
    ensures Get(r', k) == Some(v)
    ensures KeySet(r') == KeySet(r) + {k}
  {
    if |r| == 0 then [Entry(k, v)]
    else if r[0].key == k then
      var r' := [Entry(k, v)] + r[1..];
      KeySetCons(r);
      KeySetCons(r');
      assert r'[1..] == r[1..];
      r'
    else
      var tail := Put(r[1..], k, v);
      var r' := [r[0]] + tail;
      KeySetCons(r);
      KeySetCons(r');
      assert r'[1..] == tail;
      r'
  }

  /** Assigning to one key leaves every other key as it was. */
  lemma {:induction false} PutOther<V>(r: Record<V>, k: string, v: V, other: string)
    requires other != k
    ensures Get(Put(r, k, v), other) == Get(r, other)
  {
    if |r| > 0 && r[0].key != k {
      PutOther(r[1..], k, v, other);
      assert Put(r, k, v) == [r[0]] + Put(r[1..], k, v);
    }
  }

  /** Assigning to an existing key keeps every key where it is. */
  lemma {:induction false} PutExistingKeepsOrder<V>(r: Record<V>, k: string, v: V)
    requires k in KeySet(r)
    ensures Keys(Put(r, k, v)) == Keys(r)
  {
    PutExistingSameKeys(r, k, v);
  }

  lemma {:induction false} PutExistingSameKeys<V>(r: Record<V>, k: string, v: V)
    requires k in KeySet(r)
    ensures |Put(r, k, v)| == |r|
    ensures forall i :: 0 <= i < |r| ==> Put(r, k, v)[i].key == r[i].key
  {
    KeySetCons(r);
    if r[0].key != k {
      PutExistingSameKeys(r[1..], k, v);
      assert Put(r, k, v) == [r[0]] + Put(r[1..], k, v);
    }
  }

  /** Assigning to a new key appends it after all existing entries. */
  lemma {:induction false} PutNewAppends<V>(r: Record<V>, k: string, v: V)
    requires k !in KeySet(r)
    ensures Put(r, k, v) == r + [Entry(k, v)]
  {
    if |r| > 0 {
      KeySetCons(r);
      assert r[0].key != k;
      var tail := r[1..];
      PutNewAppends(tail, k, v);
      calc {
        Put(r, k, v);
        [r[0]] + Put(tail, k, v);
        [r[0]] + (tail + [Entry(k, v)]);
        ([r[0]] + tail) + [Entry(k, v)];
        { assert [r[0]] + tail == r; }
        r + [Entry(k, v)];
      }
    }
  }

  /** Assignment never creates a second entry for a key. */
  lemma {:induction false} PutDistinct<V>(r: Record<V>, k: string, v: V)
    requires DistinctKeys(r)
    ensures DistinctKeys(Put(r, k, v))
  {
    if |r| == 0 {
    } else if r[0].key == k {
      var r' := [Entry(k, v)] + r[1..];
      assert Put(r, k, v) == r';
      assert forall j :: 0 < j < |r'| ==> r'[j] == r[j];
    } else {
      var tail := Put(r[1..], k, v);
      PutDistinct(r[1..], k, v);
      assert Put(r, k, v) == [r[0]] + tail;
      HeadNotInTail(r);
      DistinctCons(r[0], tail);
    }
  }

  lemma HeadNotInTail<V>(r: Record<V>)
    requires |r| > 0 && DistinctKeys(r)
    ensures r[0].key !in KeySet(r[1..])
  {
    KeySetIndex(r[1..], r[0].key);
  }

  lemma DistinctCons<V>(e: Entry<V>, tail: Record<V>)
    requires DistinctKeys(tail) && e.key !in KeySet(tail)
    ensures DistinctKeys([e] + tail)
  {
    var r := [e] + tail;
    forall i, j | 0 <= i < j < |r| ensures r[i].key != r[j].key {
      assert r[j] == tail[j - 1];
      KeySetIndex(tail, r[j].key);
      if i > 0 {
        assert r[i] == tail[i - 1];
      }
    }
  }

  /** The first `n` keys of a list, as a set. */
  function Listed(keys: seq<string>, n: nat): set<string>
    requires n <= |keys|
  {
    if n == 0 then {} else Listed(keys, n - 1) + {keys[n - 1]}
  }

  lemma {:induction false} ListedIndex(keys: seq<string>, n: nat, k: string)
    requires n <= |keys|
    ensures k in Listed(keys, n) <==> exists i :: 0 <= i < n && keys[i] == k
  {
    if n > 0 {
      ListedIndex(keys, n - 1, k);
    }
  }

  /** All the keys of a list. */
  lemma ListedAll(keys: seq<string>)
    ensures Listed(keys, |keys|) == set k | k in keys
  {
    forall k ensures k in Listed(keys, |keys|) <==> k in keys {
      ListedIndex(keys, |keys|, k);
    }
  }

  /** A record built by assigning `f(k)` to each of the first `n` keys `k` of a list, one
      after the other: its keys are those keys, each once, and each holds `f` of itself. */
  predicate Tabulates<V(==)>(r: Record<V>, keys: seq<string>, n: nat, f: string -> Option<V>)
    requires n <= |keys|
  {
    DistinctKeys(r)
    && KeySet(r) == Listed(keys, n)
    && forall k :: k in KeySet(r) ==> Get(r, k) == f(k)
  }

  /** The record built by visiting the first `n` keys of a list in order and assigning
      `f(j)` to `keys[j]` whenever `f(j)` is a value (skipping it otherwise). */
  function Assigned<V>(keys: seq<string>, n: nat, f: nat -> Option<V>): Record<V>
    requires n <= |keys|
  {
    if n == 0 then []
    else
      var r := Assigned(keys, n - 1, f);
      match f(n - 1)
      case None => r
      case Some(v) => Put(r, keys[n - 1], v)
  }

  lemma AssignedPut<V>(keys: seq<string>, n: nat, f: nat -> Option<V>, v: V)
    requires n < |keys| && f(n) == Some(v)
    ensures Assigned(keys, n + 1, f) == Put(Assigned(keys, n, f), keys[n], v)
  {
  }

  lemma AssignedSkip<V>(keys: seq<string>, n: nat, f: nat -> Option<V>)
    requires n < |keys| && f(n) == None
    ensures Assigned(keys, n + 1, f) == Assigned(keys, n, f)
  {
  }

  /** Assignments never create a second entry for a key. */
  lemma {:induction false} AssignedDistinct<V>(keys: seq<string>, n: nat, f: nat -> Option<V>)
    requires n <= |keys|
    ensures DistinctKeys(Assigned(keys, n, f))
  {
    if n > 0 {
      AssignedDistinct(keys, n - 1, f);
      match f(n - 1)
      case None =>
      case Some(v) => PutDistinct(Assigned(keys, n - 1, f), keys[n - 1], v);
    }
  }

  /** Every entry of the record holds a value some visit assigned. */
  lemma AssignedEntry<V>(keys: seq<string>, n: nat, f: nat -> Option<V>, i: nat)
    requires n <= |keys| && i < |Assigned(keys, n, f)|
    ensures exists j :: 0 <= j < n && f(j) == Some(Assigned(keys, n, f)[i].value)
  {
    var r := Assigned(keys, n, f);
    AssignedDistinct(keys, n, f);
    GetAt(r, i);
    AssignedValue(keys, n, f, r[i].key);
  }

  /** The keys of the record are the visited keys whose visit assigned something. */
  lemma {:induction false} AssignedKeySet<V>(keys: seq<string>, n: nat, f: nat -> Option<V>, k: string)
    requires n <= |keys|
    ensures k in KeySet(Assigned(keys, n, f)) <==> exists j :: 0 <= j < n && keys[j] == k && f(j).Some?
  {
    if n > 0 {
      AssignedKeySet(keys, n - 1, f, k);
    }
  }

  /** Every value in the record was assigned by some visit of its key. */
  lemma {:induction false} AssignedValue<V>(keys: seq<string>, n: nat, f: nat -> Option<V>, k: string)
    requires n <= |keys| && Get(Assigned(keys, n, f), k).Some?
    ensures exists j :: 0 <= j < n && keys[j] == k && f(j) == Get(Assigned(keys, n, f), k)
  {
    var r := Assigned(keys, n - 1, f);
    match f(n - 1)
    case None =>
      AssignedValue(keys, n - 1, f, k);
    case Some(v) =>
      if k != keys[n - 1] {
        PutOther(r, keys[n - 1], v, k);
        AssignedValue(keys, n - 1, f, k);
      }
  }

  /** When every visit assigns, the keys are the visited keys. */
  lemma {:induction false} AssignedKeys<V>(keys: seq<string>, n: nat, f: nat -> Option<V>)
    requires n <= |keys|
    requires forall j :: 0 <= j < n ==> f(j).Some?
    ensures KeySet(Assigned(keys, n, f)) == Listed(keys, n)
  {
    if n > 0 {
      AssignedKeys(keys, n - 1, f);
    }
  }

  /** The visits of a list of keys that assign `g(k)` to each key `k` (or skip it when
      `g(k)` is `None`). */
  function ByKey<V>(keys: seq<string>, g: string -> Option<V>): nat -> Option<V> {
    (j: nat) => if j < |keys| then g(keys[j]) else None
  }

  /** When what is assigned depends only on the key, a repeated key is harmless: each
      visited key holds `g` of itself, and no other key is present. */
  lemma {:induction false} AssignedByKey<V>(keys: seq<string>, n: nat, g: string -> Option<V>,
                                            k: string)
    requires n <= |keys|
    ensures Get(Assigned(keys, n, ByKey(keys, g)), k) == if k in Listed(keys, n) then g(k) else None
  {
    if n > 0 {
      var f := ByKey(keys, g);
      AssignedByKey(keys, n - 1, g, k);
      assert f(n - 1) == g(keys[n - 1]);
      match f(n - 1)
      case None =>
      case Some(v) =>
        if k != keys[n - 1] {
          PutOther(Assigned(keys, n - 1, f), keys[n - 1], v, k);
        }
    }
  }

  /** When every visited key gets a value and what it gets depends only on the key, the
      record tabulates that value over the visited keys. */
  lemma AssignedByKeyTabulates<V>(keys: seq<string>, n: nat, g: string -> Option<V>)
    requires n <= |keys|
    requires forall j :: 0 <= j < n ==> g(keys[j]).Some?
    ensures Tabulates(Assigned(keys, n, ByKey(keys, g)), keys, n, g)
  {
    var r := Assigned(keys, n, ByKey(keys, g));
    AssignedDistinct(keys, n, ByKey(keys, g));
    AssignedKeys(keys, n, ByKey(keys, g));
    forall k | k in KeySet(r) ensures Get(r, k) == g(k) {
      AssignedByKey(keys, n, g, k);
    }
  }

  /** The first `n` keys of a list with repeats removed, each kept where it first appears. */
  function FirstOccurrences(keys: seq<string>, n: nat): seq<string>
    requires n <= |keys|
  {
    if n == 0 then []
    else
      var front := FirstOccurrences(keys, n - 1);
      if keys[n - 1] in Listed(keys, n - 1) then front else front + [keys[n - 1]]
  }

  predicate AssignsAll<V>(f: nat -> Option<V>, n: nat) {
    forall j :: 0 <= j < n ==> f(j).Some?
  }

  /** When every visit assigns, the keys appear in the order of their first visit. */
  lemma {:induction false} AssignedKeyOrder<V>(keys: seq<string>, n: nat, f: nat -> Option<V>)
    requires n <= |keys|
    requires AssignsAll(f, n)
    ensures Keys(Assigned(keys, n, f)) == FirstOccurrences(keys, n)
    ensures KeySet(Assigned(keys, n, f)) == Listed(keys, n)
  {
    if n > 0 {
      AssignedKeyOrder(keys, n - 1, f);
      assert f(n - 1).Some?;
      AssignedKeyStep(keys, n, f);
    }
  }

  lemma AssignedKeyStep<V>(keys: seq<string>, n: nat, f: nat -> Option<V>)
    requires 0 < n <= |keys| && f(n - 1).Some?
    requires Keys(Assigned(keys, n - 1, f)) == FirstOccurrences(keys, n - 1)
    requires KeySet(Assigned(keys, n - 1, f)) == Listed(keys, n - 1)
    ensures Keys(Assigned(keys, n, f)) == FirstOccurrences(keys, n)
    ensures KeySet(Assigned(keys, n, f)) == Listed(keys, n)
  {
    var v := f(n - 1).value;
    AssignedPut(keys, n - 1, f, v);
    PutKeyOrder(Assigned(keys, n - 1, f), keys, n, v);
  }

  lemma PutKeyOrder<V>(r: Record<V>, keys: seq<string>, n: nat, v: V)
    requires 0 < n <= |keys|
    requires Keys(r) == FirstOccurrences(keys, n - 1) && KeySet(r) == Listed(keys, n - 1)
    ensures Keys(Put(r, keys[n - 1], v)) == FirstOccurrences(keys, n)
  {
    var k := keys[n - 1];
    if k in Listed(keys, n - 1) {
      PutExistingKeepsOrder(r, k, v);
    } else {
      PutNewAppends(r, k, v);
      KeysSnoc(r, Entry(k, v));
    }
  }

  lemma KeysSnoc<V>(r: Record<V>, e: Entry<V>)
    ensures Keys(r + [e]) == Keys(r) + [e.key]
  {
    assert forall i :: 0 <= i < |r| ==> (r + [e])[i] == r[i];
  }

  /** The position of the last occurrence of a key in a list. */
  function LastIndex(keys: seq<string>, k: string): (i: nat)
    requires k in keys
    ensures i < |keys| && keys[i] == k
    ensures forall m :: i < m < |keys| ==> keys[m] != k
  {
    if keys[|keys| - 1] == k then |keys| - 1
    else
      assert k in keys[..|keys| - 1] by {
        var j :| 0 <= j < |keys| && keys[j] == k;
        assert keys[..|keys| - 1][j] == k;
      }
      LastIndex(keys[..|keys| - 1], k)
  }

  /** The last visit of a key that assigns decides its value: a visit that assigns, with no
      later visit of the same key, leaves its value in the record. */
  lemma {:induction false} AssignedLast<V>(keys: seq<string>, n: nat, f: nat -> Option<V>, j: nat)
    requires j < n <= |keys| && f(j).Some?
    requires forall m :: j < m < n ==> keys[m] != keys[j]
    ensures Get(Assigned(keys, n, f), keys[j]) == f(j)
  {
    if n - 1 != j {
      AssignedLast(keys, n - 1, f, j);
      match f(n - 1)
      case None =>
      case Some(v) =>
        PutOther(Assigned(keys, n - 1, f), keys[n - 1], v, keys[j]);
    }
  }

  /** A key none of whose visits assigns is absent from the record. */
  lemma AssignedAbsent<V>(keys: seq<string>, n: nat, f: nat -> Option<V>, k: string)
    requires n <= |keys|
    requires forall m :: 0 <= m < n && keys[m] == k ==> f(m).None?
    ensures Get(Assigned(keys, n, f), k) == None
  {
    AssignedKeySet(keys, n, f, k);
  }

  // ---------------------------------------------------------------- listing order

  /** An array index: the canonical decimal form (no leading zero) of an integer from 0 to
      2^32 - 2. */
  predicate IsArrayIndex(k: string) {
    |k| > 0 && AllDigits(k) && (k[0] != '0' || |k| == 1) && DigitsValue(k) < 0xFFFF_FFFF
  }

  /** The sort key that puts array indices in ascending order under the descending sort. */
  function IndexRank(k: string): real {
    if AllDigits(k) then -(DigitsValue(k) as real) else 0.0
  }

  /** The keys that are array indices, in their order in `ks`. */
  function IndexKeys(ks: seq<string>): seq<string> {
    if |ks| == 0 then []
    else (if IsArrayIndex(ks[0]) then [ks[0]] else []) + IndexKeys(ks[1..])
  }

  /** The other keys, in their order in `ks`. */
  function NamedKeys(ks: seq<string>): seq<string> {
    if |ks| == 0 then []
    else (if IsArrayIndex(ks[0]) then [] else [ks[0]]) + NamedKeys(ks[1..])
  }

  /** Splitting the keys into indices and names loses none and invents none. */
  lemma {:induction false} SplitKeys(ks: seq<string>)
    ensures multiset(IndexKeys(ks)) + multiset(NamedKeys(ks)) == multiset(ks)
    ensures forall k :: k in IndexKeys(ks) ==> IsArrayIndex(k)
    ensures forall k :: k in NamedKeys(ks) ==> !IsArrayIndex(k)
  {
    if |ks| > 0 {
      SplitKeys(ks[1..]);
      assert ks == [ks[0]] + ks[1..];
    }
  }

  /** `Object.keys(r)`: the same keys as the entries, the array indices first and ascending,
      then the other keys. */
  function OwnKeys<V>(r: Record<V>): (ks: seq<string>)
    ensures multiset(ks) == multiset(Keys(r))
    ensures IndicesFirst(ks)
  {
    var all := Keys(r);
    SplitKeys(all);
    var indices := SortBy(IndexKeys(all), IndexRank);
    SortedIndices(IndexKeys(all), indices);
    ListedOrder(indices, NamedKeys(all));
    indices + NamedKeys(all)
  }

  /** Array indices come before every other key, in ascending numeric order. */
  predicate IndicesFirst(ks: seq<string>) {
    forall i, j :: 0 <= i < j < |ks| && IsArrayIndex(ks[j]) ==>
      IsArrayIndex(ks[i]) && DigitsValue(ks[i]) <= DigitsValue(ks[j])
  }

  lemma SortedIndices(keys: seq<string>, indices: seq<string>)
    requires forall k :: k in keys ==> IsArrayIndex(k)
    requires multiset(indices) == multiset(keys)
    ensures forall k :: k in indices ==> IsArrayIndex(k)
  {
    forall k | k in indices ensures IsArrayIndex(k) {
      assert k in multiset(keys);
    }
  }

  lemma ListedOrder(indices: seq<string>, names: seq<string>)
    requires SortedDesc(indices, IndexRank)
    requires forall k :: k in indices ==> IsArrayIndex(k)
    requires forall k :: k in names ==> !IsArrayIndex(k)
    ensures IndicesFirst(indices + names)
  {
    var ks := indices + names;
    assert forall m :: |indices| <= m < |ks| ==> ks[m] == names[m - |indices|] && !IsArrayIndex(ks[m]);
    forall i, j | 0 <= i < j < |ks| && IsArrayIndex(ks[j])
      ensures IsArrayIndex(ks[i]) && DigitsValue(ks[i]) <= DigitsValue(ks[j])
    {
      assert ks[i] == indices[i] && ks[j] == indices[j];
      assert IndexRank(indices[i]) >= IndexRank(indices[j]);
    }
  }

  /** A record none of whose keys is an array index is listed in insertion order. */
  lemma OwnKeysOfNames<V>(r: Record<V>)
    requires forall i :: 0 <= i < |r| ==> !IsArrayIndex(r[i].key)
    ensures OwnKeys(r) == Keys(r)
  {
    NamesOnly(Keys(r));
  }

  lemma {:induction false} NamesOnly(ks: seq<string>)
    requires forall i :: 0 <= i < |ks| ==> !IsArrayIndex(ks[i])
    ensures IndexKeys(ks) == [] && NamedKeys(ks) == ks
  {
    if |ks| > 0 {
      NamesOnly(ks[1..]);
      assert ks == [ks[0]] + ks[1..];
    }
  }

  /** A key that is an array index moves ahead of the keys inserted before it: the column
      "2020" written after "b" is listed first. */
  lemma IndexKeyListedFirst()
    ensures OwnKeys([Entry("b", 0), Entry("2020", 1)]) == ["2020", "b"]
  {
    var r := [Entry("b", 0), Entry("2020", 1)];
    assert Keys(r) == ["b", "2020"];
    YearIsIndex();
    assert !IsDigit("b"[0]);
    SplitPair("b", "2020");
    SortSingle("2020");
  }

  lemma YearIsIndex()
    ensures IsArrayIndex("2020")
  {
    var k := "2020";
    assert AllDigits(k);
    assert k[..3] == "202" && "202"[..2] == "20" && "20"[..1] == "2" && "2"[..0] == "";
    assert DigitsValue(k) == 2020;
  }

  lemma SplitPair(a: string, b: string)
    requires !IsArrayIndex(a) && IsArrayIndex(b)
    ensures IndexKeys([a, b]) == [b] && NamedKeys([a, b]) == [a]
  {
    var tail: seq<string> := [b];
    assert [a, b][1..] == tail && tail[1..] == [];
    assert IndexKeys(tail) == [b] + IndexKeys([]) && NamedKeys(tail) == [] + NamedKeys([]);
  }

  lemma SortSingle(k: string)
    ensures SortBy([k], IndexRank) == [k]
  {
    assert multiset(SortBy([k], IndexRank)) == multiset{k};
  }
}
