/** A slice of key/value slots together with a map from key to position.  The state objects,
    the preimages and the dirty storage are all kept this way, for a deterministic order. */
module IndexedSlices {

  datatype Slot<K, V> = Slot(key: K, value: V)

  /** Every indexed position holds its key. */
  ghost predicate Indexed<K, V>(slots: seq<Slot<K, V>>, index: map<K, nat>) {
    forall k :: k in index ==> index[k] < |slots| && slots[index[k]].key == k
  }

  /** Slice and index map are inverse to each other. */
  ghost predicate Bijective<K, V>(slots: seq<Slot<K, V>>, index: map<K, nat>) {
    && Indexed(slots, index)
    && forall i :: 0 <= i < |slots| ==> slots[i].key in index && index[slots[i].key] == i
  }

  /** The map the structure stands for. */
  ghost function Contents<K, V>(slots: seq<Slot<K, V>>, index: map<K, nat>): (m: map<K, V>)
    requires Indexed(slots, index)
  {
    map k | k in index :: slots[index[k]].value
  }

  /** Overwrite the slot of a key, or append one. */
  function PutSlots<K(==), V>(slots: seq<Slot<K, V>>, index: map<K, nat>, k: K, v: V): (r: (seq<Slot<K, V>>, map<K, nat>))
    requires Indexed(slots, index)
  {
    if k in index then (slots[index[k] := Slot(k, v)], index)
    else (slots + [Slot(k, v)], index[k := |slots|])
  }

  lemma PutIndexed<K, V>(slots: seq<Slot<K, V>>, index: map<K, nat>, k: K, v: V)
    requires Indexed(slots, index)
    ensures var (s, x) := PutSlots(slots, index, k, v);
            Indexed(s, x) && Contents(s, x) == Contents(slots, index)[k := v]
  {
  }

  /** Writing a key keeps the bijection and updates exactly that key. */
  lemma PutContents<K, V>(slots: seq<Slot<K, V>>, index: map<K, nat>, k: K, v: V)
    requires Bijective(slots, index)
    ensures Indexed(slots, index) && (k in index ==> index[k] < |slots|)
    ensures var (s, x) := PutSlots(slots, index, k, v);
            Bijective(s, x) && Indexed(s, x) && Contents(s, x) == Contents(slots, index)[k := v]
  {
    PutIndexed(slots, index, k, v);
  }

  function RemovedSlots<K, V>(slots: seq<Slot<K, V>>, i: nat): seq<Slot<K, V>>
    requires i < |slots|
  {
    slots[..i] + slots[i + 1..]
  }

  function Reindexed<K(==)>(index: map<K, nat>, k: K): map<K, nat>
    requires k in index
  {
    map a | a in index && a != k :: if index[a] > index[k] then index[a] - 1 else index[a]
  }

  /** Removing a key from anywhere keeps the bijection and removes exactly that key. */
  lemma RemoveContents<K, V>(slots: seq<Slot<K, V>>, index: map<K, nat>, k: K)
    requires Bijective(slots, index) && k in index
    ensures Bijective(RemovedSlots(slots, index[k]), Reindexed(index, k))
    ensures Contents(RemovedSlots(slots, index[k]), Reindexed(index, k)) == Contents(slots, index) - {k}
  {
    var i, s, x := index[k], RemovedSlots(slots, index[k]), Reindexed(index, k);
    forall a | a in x
      ensures x[a] < |s| && s[x[a]] == slots[index[a]]
    {
      assert index[a] != i;
    }
    forall j | 0 <= j < |s|
      ensures s[j].key in x && x[s[j].key] == j
    {
      var j' := if j < i then j else j + 1;
      assert s[j] == slots[j'];
    }
  }

  /** The slice and the index map after the shifting loop has reached position i. */
  function ShiftedTo<K, V>(slots: seq<Slot<K, V>>, idx: nat, i: nat): seq<Slot<K, V>>
    requires idx < i <= |slots|
  {
    slots[..idx] + slots[idx + 1..i] + slots[i - 1..]
  }

  function ReindexedTo<K(==)>(index: map<K, nat>, k: K, i: nat): map<K, nat>
    requires k in index
  {
    map a | a in index && a != k :: if index[k] < index[a] < i then index[a] - 1 else index[a]
  }

  lemma ShiftStep<K, V>(slots: seq<Slot<K, V>>, idx: nat, i: nat)
    requires idx < i < |slots|
    ensures ShiftedTo(slots, idx, i)[i] == slots[i]
    ensures ShiftedTo(slots, idx, i)[i - 1 := slots[i]] == ShiftedTo(slots, idx, i + 1)
  {
  }

  lemma ReindexStep<K, V>(slots: seq<Slot<K, V>>, index: map<K, nat>, k: K, i: nat)
    requires Bijective(slots, index) && k in index && index[k] < i < |slots|
    ensures ReindexedTo(index, k, i)[slots[i].key := i - 1] == ReindexedTo(index, k, i + 1)
  {
    var x := ReindexedTo(index, k, i)[slots[i].key := i - 1];
    assert forall a :: a in x ==> x[a] == ReindexedTo(index, k, i + 1)[a];
  }

  lemma ShiftStart<K, V>(slots: seq<Slot<K, V>>, index: map<K, nat>, k: K)
    requires Bijective(slots, index) && k in index
    ensures ShiftedTo(slots, index[k], index[k] + 1) == slots
    ensures ReindexedTo(index, k, index[k] + 1) == index - {k}
  {
  }

  lemma ShiftEnd<K, V>(slots: seq<Slot<K, V>>, index: map<K, nat>, k: K)
    requires Bijective(slots, index) && k in index
    ensures ShiftedTo(slots, index[k], |slots|)[..|slots| - 1] == RemovedSlots(slots, index[k])
    ensures ReindexedTo(index, k, |slots|) == Reindexed(index, k)
  {
  }

  /** The shifting loop: move every slot after idx one position left and reindex it. */
  method ShiftLeft<K(==), V>(slots: seq<Slot<K, V>>, index: map<K, nat>, k: K)
    returns (slots': seq<Slot<K, V>>, index': map<K, nat>)
    requires Bijective(slots, index) && k in index
    ensures slots' == RemovedSlots(slots, index[k])
    ensures index' == Reindexed(index, k)
  {
    hide ReindexedTo, Reindexed;
    ShiftStart(slots, index, k);
    ShiftEnd(slots, index, k);
    var idx := index[k];
    slots', index' := slots, index - {k};
    var i := idx + 1;
    while i < |slots|
      invariant idx + 1 <= i <= |slots|
      invariant slots' == ShiftedTo(slots, idx, i)
      invariant index' == ReindexedTo(index, k, i)
    {
      ShiftStep(slots, idx, i);
      ReindexStep(slots, index, k, i);
      slots' := slots'[i - 1 := slots'[i]];
      index' := index'[slots'[i].key := i - 1];
      i := i + 1;
    }
    slots' := slots'[..|slots'| - 1];
  }

  /** Remove a key: nothing to do when it is absent, a fresh slice when it is alone, and the
      shifting loop otherwise. */
  method Remove<K(==), V>(slots: seq<Slot<K, V>>, index: map<K, nat>, k: K)
    returns (slots': seq<Slot<K, V>>, index': map<K, nat>)
    requires Bijective(slots, index)
    ensures Bijective(slots', index')
    ensures Contents(slots', index') == Contents(slots, index) - {k}
    ensures forall s :: s in slots' ==> s in slots
  {
    if k !in index {
      assert Contents(slots, index) - {k} == Contents(slots, index);
      return slots, index;
    }
    RemoveContents(slots, index, k);
    if |slots| == 1 {
      slots', index' := [], index - {k};
      assert forall a :: a in index ==> index[a] == 0 == index[k];
      assert slots' == RemovedSlots(slots, index[k]);
      assert index' == Reindexed(index, k);
    } else {
      slots', index' := ShiftLeft(slots, index, k);
    }
  }
}
