/** The change journal: entries, and the list of dirty accounts with change counts
    that is kept in step with them. */
module Journals {
  import opened EvmTypes
  import opened StateObjects

  datatype Entry =
    | CreateObjectChange(account: Address)
    | ResetObjectChange(prev: StateObject)
    | SuicideChange(account: Address, prevSuicided: bool, prevBalance: nat)
    | BalanceChange(account: Address, prevBalance: nat)
    | NonceChange(account: Address, prevNonce: nat)
    | StorageChange(account: Address, key: StorageKey, prevValue: Word)
    | CodeChange(account: Address, prevCode: Option<Bytes>, prevHash: CodeHash)
    | RefundChange(prevRefund: nat)
    | AddLogChange(txHash: Word)
    | AddPreimageChange(hash: Word)
    | TouchChange(account: Address)
    | AccessListAddAccountChange(address: Address)
    | AccessListAddSlotChange(address: Address, slot: Word)
  {
    function Dirtied(): Option<Address> {
      match this
      case ResetObjectChange(_) => None
      case RefundChange(_) => None
      case AddLogChange(_) => None
      case AddPreimageChange(_) => None
      case AccessListAddAccountChange(_) => None
      case AccessListAddSlotChange(_, _) => None
      case _ => Some(account)
    }
  }

  datatype Dirty = Dirty(address: Address, changes: nat)

  datatype Journal = Journal(entries: seq<Entry>, dirties: seq<Dirty>, index: map<Address, nat>) {

    /** The index map and the dirty list are inverse to each other. */
    ghost predicate IndexOk() {
      && (forall a :: a in index ==> index[a] < |dirties| && dirties[index[a]].address == a)
      && (forall i :: 0 <= i < |dirties| ==> dirties[i].address in index && index[dirties[i].address] == i)
    }

    function AddDirty(a: Address): Outcome<Journal> {
      if a !in index then
        Ok(this.(dirties := dirties + [Dirty(a, 1)], index := index[a := |dirties|]))
      else if index[a] >= |dirties| then Panic
      else
        var i := index[a];
        Ok(this.(dirties := dirties[i := dirties[i].(changes := dirties[i].changes + 1)]))
    }

    /** append; touching 0x03 marks it dirty once more. */
    function Append(e: Entry): Outcome<Journal> {
      var j := this.(entries := entries + [e]);
      if e.Dirtied().None? then Ok(j)
      else
        var r := j.AddDirty(e.Dirtied().value);
        if r.Ok? && e == TouchChange(RIPEMD) then r.value.AddDirty(RIPEMD) else r
    }

    function SubtractDirty(a: Address): Outcome<Journal> {
      if a !in index then Ok(this)
      else if index[a] >= |dirties| then Panic
      else
        var i := index[a];
        if dirties[i].changes == 0 then Ok(this)
        else Ok(this.(dirties := dirties[i := dirties[i].(changes := dirties[i].changes - 1)]))
    }

    function GetDirty(a: Address): Outcome<nat> {
      if a !in index then Ok(0)
      else if index[a] >= |dirties| then Panic
      else Ok(dirties[index[a]].changes)
    }

    /** deleteDirty: removes the slot and the key, but reindexes nothing. */
    function DeleteDirty(a: Address): Outcome<Journal> {
      if a !in index then Ok(this)
      else if index[a] >= |dirties| then Panic
      else Ok(this.(dirties := dirties[..index[a]] + dirties[index[a] + 1..], index := index - {a}))
    }

    /** The dirty bookkeeping of one step of the revert loop. */
    function Pop(): (r: Outcome<Journal>)
      requires entries != []
      ensures r.Ok? ==> r.value.entries == entries[..|entries| - 1]
    {
      var e := entries[|entries| - 1];
      var j := this.(entries := entries[..|entries| - 1]);
      if e.Dirtied().None? then Ok(j)
      else
        var a := e.Dirtied().value;
        var s := j.SubtractDirty(a);
        if s.Panic? then Panic
        else
          var c := s.value.GetDirty(a);
          if c.Panic? then Panic
          else if c.value == 0 then s.value.DeleteDirty(a)
          else s
    }

    /** The dirty bookkeeping of journal.revert down to n entries. */
    function Revert(n: nat): Outcome<Journal>
      requires n <= |entries|
      decreases |entries|
    {
      if |entries| == n then Ok(this)
      else
        var p := Pop();
        if p.Panic? then Panic else p.value.Revert(n)
    }
  }

  const EMPTY := Journal([], [], map[])

  // ---------- What the dirty list means ----------

  /** The number of entries that dirty a. */
  function Count(es: seq<Entry>, a: Address): nat {
    if es == [] then 0
    else Count(es[..|es| - 1], a) + if es[|es| - 1].Dirtied() == Some(a) then 1 else 0
  }

  /** Some entry among the first m dirties a. */
  ghost predicate Within(es: seq<Entry>, a: Address, m: nat)
    requires m <= |es|
  {
    exists i :: 0 <= i < m && es[i].Dirtied() == Some(a)
  }

  lemma {:induction false} CountPositive(es: seq<Entry>, a: Address)
    ensures Count(es, a) > 0 <==> Within(es, a, |es|)
  {
    if es != [] {
      var n := |es| - 1;
      CountPositive(es[..n], a);
      if Within(es[..n], a, n) {
        var i :| 0 <= i < n && es[..n][i].Dirtied() == Some(a);
        assert es[i].Dirtied() == Some(a);
      }
      if Within(es, a, |es|) && es[n].Dirtied() != Some(a) {
        var i :| 0 <= i < |es| && es[i].Dirtied() == Some(a);
        assert es[..n][i].Dirtied() == Some(a);
      }
    }
  }

  /** Extra marks are only ever put on 0x03. */
  function Extra(a: Address, x: nat): nat {
    if a == RIPEMD then x else 0
  }

  /** The dirty list is exactly the addresses of the entries in first-occurrence order,
      with exact counts, up to x extra marks on 0x03; with extra marks the position of
      0x03 itself is free. */
  ghost predicate Tracks(j: Journal, x: nat) {
    && j.IndexOk()
    && (forall i :: 0 <= i < |j.dirties| ==> Tracked(j, x, i))
    && (forall a :: Count(j.entries, a) + Extra(a, x) > 0 ==> a in j.index)
    && (forall q, r, m {:trigger Ordered(j, q, r, m)} ::
          0 <= q < r < |j.dirties| && 0 <= m <= |j.entries| && Placed(j, x, q) && Placed(j, x, r) ==> Ordered(j, q, r, m))
  }

  ghost predicate Tracked(j: Journal, x: nat, i: nat)
    requires i < |j.dirties|
  {
    && j.dirties[i].changes == Count(j.entries, j.dirties[i].address) + Extra(j.dirties[i].address, x)
    && j.dirties[i].changes > 0
  }

  /** The position of the address at i is determined by the entries. */
  ghost predicate Placed(j: Journal, x: nat, i: nat)
    requires i < |j.dirties|
  {
    x == 0 || j.dirties[i].address != RIPEMD
  }

  /** Whenever the address at r occurs among the first m entries, so does the one at q. */
  ghost predicate Ordered(j: Journal, q: nat, r: nat, m: nat)
    requires q < |j.dirties| && r < |j.dirties| && m <= |j.entries|
  {
    Within(j.entries, j.dirties[r].address, m) ==> Within(j.entries, j.dirties[q].address, m)
  }

  // ---------- Appending ----------

  lemma CountAppend(es: seq<Entry>, e: Entry, a: Address)
    ensures Count(es + [e], a) == Count(es, a) + if e.Dirtied() == Some(a) then 1 else 0
  {
    assert (es + [e])[..|es|] == es;
  }

  lemma WithinPrefix(es: seq<Entry>, fs: seq<Entry>, a: Address, m: nat)
    requires m <= |es| && m <= |fs| && es[..m] == fs[..m]
    ensures Within(es, a, m) <==> Within(fs, a, m)
  {
    assert forall i :: 0 <= i < m ==> es[i] == es[..m][i] && fs[i] == fs[..m][i];
  }

  /** Adding a mark for a keeps everything but the count of a, which grows by one. */
  lemma AddDirtyKeeps(j: Journal, a: Address)
    requires j.IndexOk()
    ensures j.AddDirty(a).Ok?
    ensures var k := j.AddDirty(a).value;
            && k.IndexOk() && k.entries == j.entries
            && k.index.Keys == j.index.Keys + {a}
            && |j.dirties| <= |k.dirties| <= |j.dirties| + 1
            && (a in j.index <==> |k.dirties| == |j.dirties|)
            && (a !in j.index ==> k.dirties[|j.dirties|] == Dirty(a, 1))
            && (forall i :: 0 <= i < |j.dirties| ==>
                  k.dirties[i] == Dirty(j.dirties[i].address, j.dirties[i].changes + if j.dirties[i].address == a then 1 else 0))
  {
  }

  /** The marks an entry puts on an address. */
  function Marks(e: Entry, a: Address): nat {
    if e.Dirtied() != Some(a) then 0 else if e == TouchChange(RIPEMD) then 2 else 1
  }

  /** The effect of append on the dirty list. */
  lemma AppendShape(j: Journal, e: Entry)
    requires j.IndexOk()
    ensures j.Append(e).Ok?
    ensures Appended(j, e, j.Append(e).value)
  {
    hide Journal.AddDirty;
    var j0 := j.(entries := j.entries + [e]);
    assert j0.IndexOk();
    if e.Dirtied().Some? {
      AddDirtyKeeps(j0, e.Dirtied().value);
      if e == TouchChange(RIPEMD) {
        AddDirtyKeeps(j0.AddDirty(RIPEMD).value, RIPEMD);
      }
    }
  }

  ghost predicate Appended(j: Journal, e: Entry, k: Journal) {
    && k.IndexOk()
    && k.entries == j.entries + [e]
    && k.index.Keys == j.index.Keys + (if e.Dirtied().Some? then {e.Dirtied().value} else {})
    && |j.dirties| <= |k.dirties| <= |j.dirties| + 1
    && (|k.dirties| == |j.dirties| + 1 ==>
          && e.Dirtied().Some? && e.Dirtied().value !in j.index
          && k.dirties[|j.dirties|] == Dirty(e.Dirtied().value, Marks(e, e.Dirtied().value)))
    && (forall i :: 0 <= i < |j.dirties| ==>
          k.dirties[i] == Dirty(j.dirties[i].address, j.dirties[i].changes + Marks(e, j.dirties[i].address)))
  }

  /** The order part of AppendTracks: old positions keep their order, and a new address
      comes last and occurs only in the last entry. */
  lemma AppendOrder(j: Journal, x: nat, e: Entry, k: Journal, y: nat)
    requires Tracks(j, x) && x <= y
    requires k.entries == j.entries + [e]
    requires |j.dirties| <= |k.dirties| <= |j.dirties| + 1
    requires forall i :: 0 <= i < |j.dirties| ==> k.dirties[i].address == j.dirties[i].address
    requires |k.dirties| == |j.dirties| + 1 ==>
               e.Dirtied() == Some(k.dirties[|j.dirties|].address) && e.Dirtied().value !in j.index
    ensures forall q, r, m {:trigger Ordered(k, q, r, m)} ::
          0 <= q < r < |k.dirties| && 0 <= m <= |k.entries| && Placed(k, y, q) && Placed(k, y, r) ==> Ordered(k, q, r, m)
  {
    forall q, r, m | 0 <= q < r < |k.dirties| && 0 <= m <= |k.entries| && Placed(k, y, q) && Placed(k, y, r)
      ensures Ordered(k, q, r, m)
    {
      var aq, ar := k.dirties[q].address, k.dirties[r].address;
      if m == |k.entries| {
        // every listed address without extra marks occurs somewhere
        assert Tracked(j, x, q) && Placed(j, x, q);
        CountPositive(j.entries, aq);
        var i :| 0 <= i < |j.entries| && j.entries[i].Dirtied() == Some(aq);
        assert k.entries[i] == j.entries[i];
      } else {
        assert k.entries[..m] == j.entries[..m];
        WithinPrefix(k.entries, j.entries, ar, m);
        WithinPrefix(k.entries, j.entries, aq, m);
        if r < |j.dirties| {
          assert Placed(j, x, q) && Placed(j, x, r);
          assert Ordered(j, q, r, m);
        } else if Within(j.entries, ar, m) {
          assert Within(j.entries, ar, |j.entries|);
          CountPositive(j.entries, ar);
          assert false;
        }
      }
    }
  }

  /** Appending an entry keeps the dirty list exact; touching 0x03 adds an extra mark. */
  lemma AppendTracks(j: Journal, x: nat, e: Entry)
    requires Tracks(j, x)
    ensures j.Append(e).Ok?
    ensures j.Append(e).value.entries == j.entries + [e]
    ensures Tracks(j.Append(e).value, if e == TouchChange(RIPEMD) then x + 1 else x)
  {
    hide Journal.Append, Ordered, Placed;
    AppendShape(j, e);
    var k := j.Append(e).value;
    var y := if e == TouchChange(RIPEMD) then x + 1 else x;
    AppendOrder(j, x, e, k, y);
    AppendCounts(j, x, e, k, y);
  }

  /** The counting part of AppendTracks. */
  lemma AppendCounts(j: Journal, x: nat, e: Entry, k: Journal, y: nat)
    requires Tracks(j, x) && Appended(j, e, k) && y == if e == TouchChange(RIPEMD) then x + 1 else x
    ensures forall i :: 0 <= i < |k.dirties| ==> Tracked(k, y, i)
    ensures forall a :: Count(k.entries, a) + Extra(a, y) > 0 ==> a in k.index
  {
    hide Count, Ordered, Placed;
    forall i | 0 <= i < |k.dirties|
      ensures Tracked(k, y, i)
    {
      CountAppend(j.entries, e, k.dirties[i].address);
      if i < |j.dirties| {
        assert Tracked(j, x, i);
      }
    }
    forall a | Count(k.entries, a) + Extra(a, y) > 0
      ensures a in k.index
    {
      CountAppend(j.entries, e, a);
    }
  }

  // ---------- Reverting ----------

  /** The address dirtied by the last entry. */
  function LastDirtied(j: Journal): Option<Address>
    requires j.entries != []
  {
    j.entries[|j.entries| - 1].Dirtied()
  }

  /** Undoing the last entry would clear the last mark of an address listed before 0x03. */
  ghost predicate Breaks(j: Journal, x: nat)
    requires j.entries != [] && Tracks(j, x)
  {
    && x > 0 && LastDirtied(j).Some?
    && j.dirties[j.index[LastDirtied(j).value]].changes == 1
    && j.index[LastDirtied(j).value] < j.index[RIPEMD]
  }

  /** The address of the last entry is listed with its count. */
  lemma LastListed(j: Journal, x: nat)
    requires j.entries != [] && Tracks(j, x) && LastDirtied(j).Some?
    ensures LastDirtied(j).value in j.index
    ensures var a := LastDirtied(j).value;
            j.dirties[j.index[a]].changes == Count(j.entries[..|j.entries| - 1], a) + 1 + Extra(a, x)
  {
    var a := LastDirtied(j).value;
    assert Count(j.entries, a) > 0;
    assert Tracked(j, x, j.index[a]);
  }

  /** LIFO: an address that loses its last mark is followed by nothing but 0x03. */
  lemma ClearedIsLast(j: Journal, x: nat, r: nat)
    requires j.entries != [] && Tracks(j, x) && LastDirtied(j).Some?
    requires j.dirties[j.index[LastDirtied(j).value]].changes == 1
    requires j.index[LastDirtied(j).value] < r < |j.dirties|
    ensures x > 0 && j.dirties[r].address == RIPEMD
  {
    var n := |j.entries| - 1;
    var a := LastDirtied(j).value;
    var q := j.index[a];
    LastListed(j, x);
    if Placed(j, x, r) {
      var b := j.dirties[r].address;
      assert Tracked(j, x, r);
      CountPositive(j.entries, b);
      var i :| 0 <= i < |j.entries| && j.entries[i].Dirtied() == Some(b);
      assert i != n;
      assert Within(j.entries, b, n);
      assert Placed(j, x, q);
      assert Ordered(j, q, r, n);
      WithinPrefix(j.entries, j.entries[..n], a, n);
      CountPositive(j.entries[..n], a);
      assert false;
    }
  }

  /** Dropping an entry keeps the order of the positions that remain. */
  lemma PopOrder(j: Journal, x: nat, k: Journal)
    requires j.entries != [] && Tracks(j, x)
    requires k.entries == j.entries[..|j.entries| - 1]
    requires |k.dirties| <= |j.dirties|
    requires forall i :: 0 <= i < |k.dirties| ==> k.dirties[i].address == j.dirties[i].address
    ensures forall q, r, m {:trigger Ordered(k, q, r, m)} ::
          0 <= q < r < |k.dirties| && 0 <= m <= |k.entries| && Placed(k, x, q) && Placed(k, x, r) ==> Ordered(k, q, r, m)
  {
    forall q, r, m | 0 <= q < r < |k.dirties| && 0 <= m <= |k.entries| && Placed(k, x, q) && Placed(k, x, r)
      ensures Ordered(k, q, r, m)
    {
      assert Placed(j, x, q) && Placed(j, x, r);
      assert Ordered(j, q, r, m);
      assert k.entries[..m] == j.entries[..m];
      WithinPrefix(k.entries, j.entries, k.dirties[r].address, m);
      WithinPrefix(k.entries, j.entries, k.dirties[q].address, m);
    }
  }

  /** What Pop leaves when an address keeps a mark, or is listed last. */
  ghost predicate Popped(j: Journal, k: Journal)
    requires j.entries != []
  {
    && k.IndexOk()
    && k.entries == j.entries[..|j.entries| - 1]
    && |k.dirties| <= |j.dirties|
    && (forall i :: 0 <= i < |k.dirties| ==>
          k.dirties[i] == Dirty(j.dirties[i].address,
                                j.dirties[i].changes - if Some(j.dirties[i].address) == LastDirtied(j) && j.dirties[i].changes > 0 then 1 else 0))
    && (forall i :: |k.dirties| <= i < |j.dirties| ==> Some(j.dirties[i].address) == LastDirtied(j) && j.dirties[i].changes == 1)
  }

  lemma PopShape(j: Journal, x: nat)
    requires j.entries != [] && Tracks(j, x) && !Breaks(j, x)
    ensures j.Pop().Ok? && Popped(j, j.Pop().value)
  {
    hide Journal.Pop, Popped;
    TracksIndex(j, x);
    if LastDirtied(j).None? {
      PopUnmarked(j);
    } else {
      var a := LastDirtied(j).value;
      LastListed(j, x);
      PopDirties(j, a);
      var i := j.index[a];
      if j.dirties[i].changes == 1 {
        ClearedAtEnd(j, x);
        PoppedCleared(j, a);
      } else {
        PoppedLowered(j, a);
      }
    }
  }

  /** An entry that dirties nothing leaves the list alone. */
  lemma PopUnmarked(j: Journal)
    requires j.entries != [] && j.IndexOk() && LastDirtied(j).None?
    ensures j.Pop().Ok? && Popped(j, j.Pop().value)
  {
  }

  lemma ClearedAtEnd(j: Journal, x: nat)
    requires j.entries != [] && Tracks(j, x) && !Breaks(j, x) && LastDirtied(j).Some? && LastDirtied(j).value in j.index
    requires j.dirties[j.index[LastDirtied(j).value]].changes == 1
    ensures j.index[LastDirtied(j).value] == |j.dirties| - 1
  {
    hide Journal.Pop;
    var i := j.index[LastDirtied(j).value];
    if i + 1 < |j.dirties| {
      ClearedIsLast(j, x, i + 1);
      assert false;
    }
  }

  lemma PoppedCleared(j: Journal, a: Address)
    requires j.entries != [] && j.IndexOk() && LastDirtied(j) == Some(a) && a in j.index && j.index[a] == |j.dirties| - 1
    requires j.dirties[|j.dirties| - 1].changes == 1
    requires
      var i := |j.dirties| - 1;
      j.Pop() == Ok(Journal(j.entries[..|j.entries| - 1], j.dirties[..i] + j.dirties[i + 1..], j.index - {a}))
    ensures Popped(j, j.Pop().value)
  {
    hide Journal.Pop;
    var i := |j.dirties| - 1;
    assert j.dirties[..i] + j.dirties[i + 1..] == j.dirties[..i];
  }

  lemma PoppedLowered(j: Journal, a: Address)
    requires j.entries != [] && j.IndexOk() && LastDirtied(j) == Some(a) && a in j.index && j.dirties[j.index[a]].changes > 1
    requires
      var i := j.index[a];
      j.Pop() == Ok(Journal(j.entries[..|j.entries| - 1], j.dirties[i := Dirty(a, j.dirties[i].changes - 1)], j.index))
    ensures Popped(j, j.Pop().value)
  {
    hide Journal.Pop;
  }

  /** Undoing an entry keeps the dirty list exact, unless it breaks it. */
  lemma PopTracks(j: Journal, x: nat)
    requires j.entries != [] && Tracks(j, x) && !Breaks(j, x)
    ensures j.Pop().Ok? && Tracks(j.Pop().value, x)
    ensures Popped(j, j.Pop().value)
  {
    PopShape(j, x);
    var k := j.Pop().value;
    PopOrder(j, x, k);
    forall i | 0 <= i < |k.dirties|
      ensures Tracked(k, x, i)
    {
      assert Tracked(j, x, i);
      if Some(j.dirties[i].address) == LastDirtied(j) {
        LastListed(j, x);
        assert k.index[j.dirties[i].address] == i;
      }
    }
    forall a | Count(k.entries, a) + Extra(a, x) > 0
      ensures a in k.index
    {
      assert a in j.index;
      var i := j.index[a];
      if LastDirtied(j) == Some(a) {
        LastListed(j, x);
      }
      assert k.dirties[i].address == a;
    }
  }

  /** 0x03 is indexed beyond the end of the dirty list. */
  ghost predicate Stale(j: Journal) {
    RIPEMD in j.index && j.index[RIPEMD] >= |j.dirties|
  }

  /** deleteDirty does not reindex, so a breaking step leaves the index of 0x03 stale. */
  lemma PopBreaks(j: Journal, x: nat)
    requires j.entries != [] && Tracks(j, x) && Breaks(j, x)
    ensures j.Pop().Ok? && Stale(j.Pop().value)
  {
    var a := LastDirtied(j).value;
    LastListed(j, x);
    var r := |j.dirties| - 1;
    ClearedIsLast(j, x, r);
    assert j.index[RIPEMD] == r;
  }

  /** A stale index is never repaired by further undoing. */
  lemma StaleStays(j: Journal)
    requires j.entries != [] && Stale(j) && j.Pop().Ok?
    ensures Stale(j.Pop().value)
  {
  }

  lemma {:induction false} StaleReverts(j: Journal, n: nat)
    requires n <= |j.entries| && Stale(j) && j.Revert(n).Ok?
    ensures Stale(j.Revert(n).value)
    decreases |j.entries|
  {
    if |j.entries| > n {
      StaleStays(j);
      StaleReverts(j.Pop().value, n);
    }
  }

  /** Every address listed before 0x03 still has an entry among the first n. */
  ghost predicate Safe(j: Journal, x: nat, n: nat)
    requires Tracks(j, x) && n <= |j.entries|
  {
    x == 0 || forall q :: 0 <= q < j.index[RIPEMD] ==> Within(j.entries, j.dirties[q].address, n)
  }

  /** Reverting to n entries keeps the index map correct, without a panic, exactly when
      every address listed before an extra-marked 0x03 still has an entry among the first
      n; in particular always when 0x03 carries no extra mark. */
  lemma {:induction false} RevertExact(j: Journal, x: nat, n: nat)
    requires Tracks(j, x) && n <= |j.entries|
    ensures Safe(j, x, n) <==> j.Revert(n).Ok? && j.Revert(n).value.IndexOk()
    ensures Safe(j, x, n) ==> Tracks(j.Revert(n).value, x) && j.Revert(n).value.entries == j.entries[..n]
    decreases |j.entries|
  {
    hide Tracks, Safe, Breaks, Popped, Stale, Journal.Pop, Journal.IndexOk;
    if |j.entries| == n {
      TracksIndex(j, x);
      SafeNow(j, x);
      assert j.entries[..n] == j.entries;
    } else if Breaks(j, x) {
      PopBreaks(j, x);
      BreakingIsUnsafe(j, x, n);
      if j.Revert(n).Ok? {
        StaleReverts(j.Pop().value, n);
        StaleIndex(j.Revert(n).value);
      }
    } else {
      PopTracks(j, x);
      SafePop(j, x, n);
      RevertExact(j.Pop().value, x, n);
      assert j.entries[..|j.entries| - 1][..n] == j.entries[..n];
    }
  }

  lemma StaleIndex(j: Journal)
    requires Stale(j)
    ensures !j.IndexOk()
  {
  }

  /** Every address listed before 0x03 has some entry. */
  lemma SafeNow(j: Journal, x: nat)
    requires Tracks(j, x)
    ensures Safe(j, x, |j.entries|)
  {
    forall q | x > 0 && 0 <= q < j.index[RIPEMD]
      ensures Within(j.entries, j.dirties[q].address, |j.entries|)
    {
      assert Tracked(j, x, q);
      CountPositive(j.entries, j.dirties[q].address);
    }
  }

  lemma BreakingIsUnsafe(j: Journal, x: nat, n: nat)
    requires j.entries != [] && Tracks(j, x) && Breaks(j, x) && n < |j.entries|
    ensures !Safe(j, x, n)
  {
    var a := LastDirtied(j).value;
    var es := j.entries[..|j.entries| - 1];
    LastListed(j, x);
    if Within(j.entries, a, n) {
      var i :| 0 <= i < n && j.entries[i].Dirtied() == Some(a);
      assert es[i].Dirtied() == Some(a);
      CountPositive(es, a);
    }
    assert j.dirties[j.index[a]].address == a;
  }

  lemma SafePop(j: Journal, x: nat, n: nat)
    requires j.entries != [] && Tracks(j, x) && n < |j.entries|
    requires j.Pop().Ok? && Popped(j, j.Pop().value) && Tracks(j.Pop().value, x)
    ensures Safe(j, x, n) <==> Safe(j.Pop().value, x, n)
  {
    var k := j.Pop().value;
    if x > 0 {
      var p := k.index[RIPEMD];
      assert k.dirties[p].address == RIPEMD == j.dirties[p].address;
      forall q | 0 <= q < p
        ensures Within(j.entries, j.dirties[q].address, n) <==> Within(k.entries, k.dirties[q].address, n)
      {
        assert j.entries[..n] == k.entries[..n];
        WithinPrefix(j.entries, k.entries, j.dirties[q].address, n);
      }
    }
  }

  // ---------- The journal is a function of its entries ----------

  /** The journal obtained by appending the entries one by one. */
  function Replay(es: seq<Entry>): Outcome<Journal> {
    if es == [] then Ok(EMPTY)
    else
      var j := Replay(es[..|es| - 1]);
      if j.Panic? then Panic else j.value.Append(es[|es| - 1])
  }

  /** Re-appending an entry undoes undoing it. */
  lemma AppendPop(j: Journal)
    requires j.entries != [] && Tracks(j, 0)
    requires j.entries[|j.entries| - 1] != TouchChange(RIPEMD)
    ensures j.Pop().Ok? && j.Pop().value.Append(j.entries[|j.entries| - 1]) == Ok(j)
  {
    hide Tracks, Popped, Journal.Pop, Journal.Append;
    TracksIndex(j, 0);
    PopTracks(j, 0);
    if LastDirtied(j).Some? {
      LastListed(j, 0);
    }
    AppendPopped(j);
  }

  lemma TracksIndex(j: Journal, x: nat)
    requires Tracks(j, x)
    ensures j.IndexOk()
  {
  }

  lemma AppendPopped(j: Journal)
    requires j.entries != [] && j.IndexOk() && j.Pop().Ok? && Popped(j, j.Pop().value)
    requires j.entries[|j.entries| - 1] != TouchChange(RIPEMD)
    requires LastDirtied(j).Some? ==> LastDirtied(j).value in j.index && j.dirties[j.index[LastDirtied(j).value]].changes > 0
    ensures j.Pop().value.Append(j.entries[|j.entries| - 1]) == Ok(j)
  {
    hide Popped, Journal.IndexOk;
    var e := j.entries[|j.entries| - 1];
    assert j.entries[..|j.entries| - 1] + [e] == j.entries;
    if LastDirtied(j).Some? {
      var a := LastDirtied(j).value;
      PopDirties(j, a);
      hide Journal.Pop;
      var i := j.index[a];
      if j.dirties[i].changes == 1 {
        ClearedLast(j, a);
        assert j.dirties[..i] + j.dirties[i + 1..] + [Dirty(a, 1)] == j.dirties;
        assert (j.index - {a})[a := i] == j.index;
      } else {
        assert j.dirties[i := Dirty(a, j.dirties[i].changes - 1)][i := j.dirties[i]] == j.dirties;
      }
    }
  }

  /** What undoing the last entry does to the dirty list and its index. */
  lemma PopDirties(j: Journal, a: Address)
    requires j.entries != [] && j.IndexOk() && LastDirtied(j) == Some(a) && a in j.index
    ensures
      var i := j.index[a];
      var es := j.entries[..|j.entries| - 1];
      && i < |j.dirties| && j.dirties[i].address == a
      && (j.dirties[i].changes == 1 ==> j.Pop() == Ok(Journal(es, j.dirties[..i] + j.dirties[i + 1..], j.index - {a})))
      && (j.dirties[i].changes > 1 ==> j.Pop() == Ok(Journal(es, j.dirties[i := Dirty(a, j.dirties[i].changes - 1)], j.index)))
  {
    var i := j.index[a];
    if j.dirties[i].changes == 1 {
      var ds := j.dirties[i := Dirty(a, 0)];
      assert ds[..i] + ds[i + 1..] == j.dirties[..i] + j.dirties[i + 1..];
    }
  }

  lemma ClearedLast(j: Journal, a: Address)
    requires j.entries != [] && j.IndexOk() && LastDirtied(j) == Some(a) && a in j.index && j.dirties[j.index[a]].changes == 1
    requires j.Pop().Ok? && Popped(j, j.Pop().value)
    ensures j.index[a] == |j.dirties| - 1
  {
    PopDirties(j, a);
    hide Journal.Pop;
  }

  /** Without touches of 0x03 the journal is determined by its entries, so reverting
      restores it field by field. */
  lemma {:induction false} TracksCanonical(j: Journal)
    requires Tracks(j, 0) && TouchChange(RIPEMD) !in j.entries
    ensures Replay(j.entries) == Ok(j)
    decreases |j.entries|
  {
    if j.entries == [] {
      assert |j.dirties| > 0 ==> Tracked(j, 0, 0);
      assert j.dirties == [] && j.index == map[];
    } else {
      PopTracks(j, 0);
      AppendPop(j);
      TracksCanonical(j.Pop().value);
    }
  }
}
