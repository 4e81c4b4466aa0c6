/** Which calls mark which accounts dirty, from what a reader sees before each call, and what a
    whole transaction writes to the stores, without naming the journal. */
module Marking {
  import opened EvmTypes
  import opened StateObjects
  import opened Journals
  import opened StateDBs
  import opened Reverting
  import opened Observations
  import opened Snapshots
  import opened Committing
  import opened Transactions

  /** EIP-161 emptiness as a reader sees it. */
  predicate Hollow(r: Reading) {
    r.balance == 0 && r.nonce == 0 && r.code == []
  }

  /** Whether an operation that succeeds marks its target: it creates the account, it is a setter
      that changes something, it is a suicide, or it adds nothing to a hollow account. */
  predicate Marks(op: Op, before: Option<Reading>, word: Word) {
    match op
    case SetBalance(_, _) => true
    case AddBalance(_, n) => n != 0 || before.None? || Hollow(before.value)
    case SubBalance(_, n) => n != 0 || before.None?
    case SetNonce(_, _) => true
    case SetState(_, _, value) => before.None? || word != value
    case SetCode(_, _) => true
    case CreateAccount(_) => before.None?
    case Suicide(_) => before.Some?
    case _ => false
  }

  predicate MarkedBy(c: Core, op: Op, a: Address) {
    Targets(op, a) && Marks(op, Read(c, a), if op.SetState? then ReadWord(c, a, op.slot) else 0)
  }

  /** CreateAccount over an existing account. */
  predicate ResetBy(c: Core, op: Op, a: Address) {
    op == CreateAccount(a) && Read(c, a).Some?
  }

  // ---------- One operation ----------

  /** Some entry dirties a. */
  ghost predicate Dirties(es: seq<Entry>, a: Address) {
    exists i :: 0 <= i < |es| && es[i].Dirtied() == Some(a)
  }

  /** Some entry resets a. */
  ghost predicate Resets(es: seq<Entry>, a: Address) {
    exists i :: 0 <= i < |es| && es[i].ResetObjectChange? && es[i].prev.address == a
  }

  lemma EntriesConcat(es: seq<Entry>, fs: seq<Entry>, a: Address)
    ensures Dirties(es + fs, a) <==> Dirties(es, a) || Dirties(fs, a)
    ensures Resets(es + fs, a) <==> Resets(es, a) || Resets(fs, a)
  {
    var all := es + fs;
    assert forall i :: 0 <= i < |es| ==> all[i] == es[i];
    assert forall i :: 0 <= i < |fs| ==> all[|es| + i] == fs[i];
    assert forall i :: |es| <= i < |all| ==> all[i] == fs[i - |es|];
  }

  lemma NoEntries(a: Address)
    ensures !Dirties([], a) && !Resets([], a)
  {
  }

  lemma OneEntry(e: Entry, a: Address)
    ensures Dirties([e], a) <==> e.Dirtied() == Some(a)
    ensures Resets([e], a) <==> e.ResetObjectChange? && e.prev.address == a
  {
    assert [e][0] == e;
  }

  lemma HollowIsEmpty(so: StateObject, st: Stores)
    requires so.Valid(st) && st.Valid()
    ensures Hollow(ReadObject(so, st)) <==> so.Empty()
  {
    CodeIsPreimage(so, st);
  }

  /** Fetching the object marks it when it has to be created. */
  lemma FetchMarks(c: Core, b: Address, a: Address)
    requires c.Valid()
    ensures Dirties(GetOrNew(c, b).entries, a) <==> a == b && Read(c, b).None?
    ensures !Resets(GetOrNew(c, b).entries, a)
  {
    hide Core.Valid, Dirties, Resets, StateObject.CodeBytes;
    NoEntries(a);
    OneEntry(CreateObjectChange(b), a);
    assert c.Fill(b).Lookup(b) == c.Lookup(b);
  }

  /** Writing to a fetched object marks it when something changes or a hollow one is touched. */
  lemma WrittenMarks(c: Core, so: StateObject, op: Op, a: Address)
    requires Setter(op) && Write(c, so, op).Ok? && so.address == op.a && so.Valid(c.stores) && c.stores.Valid()
    ensures Dirties(Write(c, so, op).value.entries, a) <==>
            a == op.a && Marks(op, Some(ReadObject(so, c.stores)), if op.SetState? then so.ValueAt(c.stores, op.slot) else 0)
    ensures !Resets(Write(c, so, op).value.entries, a)
  {
    HollowIsEmpty(so, c.stores);
    hide StateObject.Valid, Stores.Valid, Dirties, Resets, Hollow, StateObject.Empty, StateObject.CodeBytes;
    var es := Write(c, so, op).value.entries;
    NoEntries(a);
    if es != [] {
      assert es == [es[0]];
      OneEntry(es[0], a);
    }
  }

  /** An operation that succeeds journals an entry that dirties a if and only if it marks a, from
      what a reader saw of a before; and a reset if and only if it recreates a. */
  lemma OperationMarks(c: Core, op: Op, a: Address)
    requires c.Valid() && Do(c, op).Ok?
    ensures Dirties(Do(c, op).value.entries, a) <==> MarkedBy(c, op, a)
    ensures Resets(Do(c, op).value.entries, a) <==> ResetBy(c, op, a)
  {
    hide Core.Valid, StateObject.Valid, Dirties, Resets, Write, Marks;
    if Setter(op) {
      SetterMarks(c, op, a);
    } else {
      PlainMarks(c, op, a);
    }
  }

  lemma SetterMarks(c: Core, op: Op, a: Address)
    requires c.Valid() && Setter(op) && Do(c, op).Ok?
    ensures Dirties(Do(c, op).value.entries, a) <==> MarkedBy(c, op, a)
    ensures !Resets(Do(c, op).value.entries, a)
  {
    hide Core.Valid, StateObject.Valid, Dirties, Resets, Write, Stores.Valid, StateObject.CodeBytes, StateObject.ValueAt;
    var s := GetOrNew(c, op.a);
    var so := s.core.objects[op.a];
    FetchedReads(c, op.a);
    LookupValid(s.core, op.a);
    StoresValid(s.core);
    FetchMarks(c, op.a, a);
    WrittenMarks(s.core, so, op, a);
    EntriesConcat(s.entries, Write(s.core, so, op).value.entries, a);
    assert Read(s.core, op.a) == Some(ReadObject(so, s.core.stores));
    assert op.SetState? ==> ReadWord(s.core, op.a, op.slot) == so.ValueAt(s.core.stores, op.slot);
  }

  lemma PlainMarks(c: Core, op: Op, a: Address)
    requires c.Valid() && !Setter(op) && Do(c, op).Ok?
    ensures Dirties(Do(c, op).value.entries, a) <==> MarkedBy(c, op, a)
    ensures Resets(Do(c, op).value.entries, a) <==> ResetBy(c, op, a)
  {
    hide Core.Valid, StateObject.Valid, Dirties, Resets, StateObject.CodeBytes, StateObject.ValueAt, StateObject.GetState,
      StateObject.GetCommittedState, AccessLists.AccessList.AddSlot, AccessLists.AccessList.AddAddress;
    var es := Do(c, op).value.entries;
    NoEntries(a);
    if |es| == 1 {
      assert es == [es[0]];
      OneEntry(es[0], a);
    } else if |es| == 2 {
      assert es == [es[0]] + [es[1]];
      OneEntry(es[0], a);
      OneEntry(es[1], a);
      EntriesConcat([es[0]], [es[1]], a);
    }
    if op.CreateAccount? || op.Suicide? {
      LiveAddress(c, op.a);
      assert c.Fill(op.a).Lookup(op.a) == c.Lookup(op.a);
    }
  }

  lemma LiveAddress(c: Core, a: Address)
    requires c.Valid()
    ensures c.Lookup(a).Some? ==> c.Lookup(a).value.address == a
  {
    if a in c.objects {
      assert c.ValidAt(a);
    }
  }

  // ---------- One call on the database ----------

  /** In an exact dirty list an address is listed exactly when an entry dirties it or, for 0x03,
      when an extra mark is on it. */
  lemma ListedIs(j: Journal, x: nat, a: Address)
    requires Tracks(j, x)
    ensures a in DirtyAddresses(j.dirties) <==> Dirties(j.entries, a) || (a == RIPEMD && x > 0)
  {
    CountPositive(j.entries, a);
    assert Within(j.entries, a, |j.entries|) <==> Dirties(j.entries, a);
    if a in DirtyAddresses(j.dirties) {
      var i :| 0 <= i < |j.dirties| && j.dirties[i].address == a;
      assert Tracked(j, x, i);
    }
    if Dirties(j.entries, a) || (a == RIPEMD && x > 0) {
      assert a in j.index;
      assert j.dirties[j.index[a]].address == a;
    }
  }

  /** A touch of 0x03 is adding nothing to it when it is missing or hollow. */
  predicate Sticks(c: Core, act: Action) {
    act.Operate? && act.op == AddBalance(RIPEMD, 0) && MarkedBy(c, act.op, RIPEMD)
  }

  lemma SticksIsTouches(c: Core, act: Action)
    requires c.Valid()
    ensures Sticks(c, act) <==> Touches(c, act)
  {
    if c.Lookup(RIPEMD).Some? {
      LookupValid(c, RIPEMD);
      StoresValid(c);
      HollowIsEmpty(c.Lookup(RIPEMD).value, c.stores);
    }
  }

  /** After an operation that succeeds an account is dirty if and only if it was before, or the
      operation marks it. */
  lemma OperationDirties(db: DB, op: Op, x: nat, a: Address)
    requires db.core.Valid() && Tracks(db.journal, x) && Exec(db, Operate(op)).Ok?
    ensures a in DirtyAddresses(Exec(db, Operate(op)).value.journal.dirties) <==>
            a in DirtyAddresses(db.journal.dirties) || MarkedBy(db.core, op, a)
  {
    hide Core.Valid, Tracks, Do, MarkedBy, AppendAll, Dirties, Resets, DirtyAddresses, Touches;
    var act := Operate(op);
    var db' := Exec(db, act).value;
    ExecTracks(db, act, x);
    SticksIsTouches(db.core, act);
    OperationMarks(db.core, op, a);
    EntriesConcat(db.journal.entries, Do(db.core, op).value.entries, a);
    ListedIs(db.journal, x, a);
    ListedIs(db'.journal, x + if Touches(db.core, act) then 1 else 0, a);
  }

  /** The entries of d dirty what those of db do, and what the operation marks. */
  ghost predicate MarksAdded(db: DB, op: Op, d: DB) {
    forall a :: Dirties(d.journal.entries, a) <==> Dirties(db.journal.entries, a) || MarkedBy(db.core, op, a)
  }

  lemma ExecMarks(db: DB, op: Op)
    requires db.core.Valid() && Exec(db, Operate(op)).Ok?
    ensures MarksAdded(db, op, Exec(db, Operate(op)).value)
  {
    hide Core.Valid, Do, MarkedBy, AppendAll, Dirties, Resets;
    forall a
      ensures Dirties(Exec(db, Operate(op)).value.journal.entries, a) <==>
              Dirties(db.journal.entries, a) || MarkedBy(db.core, op, a)
    {
      OperationMarks(db.core, op, a);
      EntriesConcat(db.journal.entries, Do(db.core, op).value.entries, a);
    }
  }

  // ---------- Every run ----------

  /** The accounts marked and recreated so far, what they were at each snapshot, the next id, and
      whether 0x03 was ever touched: that mark outlives a revert. */
  datatype Ledger = Ledger(marks: set<Address>, resets: set<Address>, saved: map<nat, Saved>, next: nat, stuck: bool) {
    function Dirty(): set<Address> {
      marks + if stuck then {RIPEMD} else {}
    }
  }

  datatype Saved = Saved(marks: set<Address>, resets: set<Address>)

  function Target(op: Op): set<Address> {
    if Setter(op) || op.CreateAccount? || op.Suicide? then {op.a} else {}
  }

  /** The ledger after one call, from what a reader sees before it. */
  function Enter(l: Ledger, c: Core, act: Action): Ledger {
    match act
    case Operate(op) =>
      l.(marks := l.marks + (set a | a in Target(op) && MarkedBy(c, op, a)),
         resets := l.resets + (set a | a in Target(op) && ResetBy(c, op, a)),
         stuck := l.stuck || Sticks(c, act))
    case TakeSnapshot => l.(saved := l.saved[l.next := Saved(l.marks, l.resets)], next := l.next + 1)
    case RevertTo(id) => if id in l.saved then l.(marks := l.saved[id].marks, resets := l.saved[id].resets) else l
  }

  /** The ledger after a run. */
  function Ledgered(l: Ledger, db: DB, acts: seq<Action>): Ledger
    decreases |acts|
  {
    if acts == [] || Exec(db, acts[0]).Panic? then l
    else Ledgered(Enter(l, db.core, acts[0]), Exec(db, acts[0]).value, acts[1..])
  }

  function NewLedger(db: DB): Ledger {
    Ledger({}, {}, map[], db.nextRevision, false)
  }

  /** The sets are those of the entries. */
  ghost predicate Records(s: Saved, es: seq<Entry>) {
    forall a :: (a in s.marks <==> Dirties(es, a)) && (a in s.resets <==> Resets(es, a))
  }

  /** The ledger is that of the journal, also as of each valid snapshot. */
  ghost predicate Keeps(l: Ledger, db: DB) {
    && l.next == db.nextRevision && Records(Saved(l.marks, l.resets), db.journal.entries)
    && forall i :: 0 <= i < |db.revisions| ==> KeepsAt(l, db, i)
  }

  ghost predicate KeepsAt(l: Ledger, db: DB, i: nat)
    requires i < |db.revisions|
  {
    var r := db.revisions[i];
    && r.journalIndex <= |db.journal.entries| && r.id < db.nextRevision && r.id in l.saved
    && Records(l.saved[r.id], db.journal.entries[..r.journalIndex])
  }

  lemma OperateKeeps(l: Ledger, db: DB, op: Op)
    requires db.core.Valid() && Keeps(l, db) && Exec(db, Operate(op)).Ok?
    ensures Keeps(Enter(l, db.core, Operate(op)), Exec(db, Operate(op)).value)
  {
    hide Core.Valid, Do, MarkedBy, ResetBy, AppendAll, Dirties, Resets, Sticks;
    var l' := Enter(l, db.core, Operate(op));
    var db' := Exec(db, Operate(op)).value;
    var es := Do(db.core, op).value.entries;
    forall a
      ensures (a in l'.marks <==> Dirties(db'.journal.entries, a)) && (a in l'.resets <==> Resets(db'.journal.entries, a))
    {
      OperationMarks(db.core, op, a);
      EntriesConcat(db.journal.entries, es, a);
      TargetIs(db.core, op, a);
    }
    forall i | 0 <= i < |db'.revisions|
      ensures KeepsAt(l', db', i)
    {
      assert KeepsAt(l, db, i);
      var k := db.revisions[i].journalIndex;
      assert db'.journal.entries[..k] == db.journal.entries[..k];
    }
  }

  lemma TargetIs(c: Core, op: Op, a: Address)
    ensures MarkedBy(c, op, a) || ResetBy(c, op, a) ==> a in Target(op)
  {
  }

  lemma SnapshotKeeps(l: Ledger, db: DB)
    requires Keeps(l, db)
    ensures Keeps(Enter(l, db.core, TakeSnapshot), db.Snapshot().0)
  {
    hide Records;
    var l' := Enter(l, db.core, TakeSnapshot);
    var db' := db.Snapshot().0;
    assert db.journal.entries[..|db.journal.entries|] == db.journal.entries;
    forall i | 0 <= i < |db'.revisions|
      ensures KeepsAt(l', db', i)
    {
      if i < |db.revisions| {
        assert KeepsAt(l, db, i);
      }
    }
  }

  lemma RevertKeeps(l: Ledger, db: DB, id: nat)
    requires Keeps(l, db) && db.RevisionsOk() && db.RevertToSnapshot(id).Ok?
    ensures Keeps(Enter(l, db.core, RevertTo(id)), db.RevertToSnapshot(id).value)
  {
    hide Records, RevertLoop, Journal.Revert, UndoAll;
    var l' := Enter(l, db.core, RevertTo(id));
    var db' := db.RevertToSnapshot(id).value;
    var idx := Search(db.revisions, id);
    var m := db.revisions[idx].journalIndex;
    assert KeepsAt(l, db, idx);
    RevertLoopSplits(db.core, db.journal, m);
    RevertEntries(db.journal, m);
    forall i | 0 <= i < |db'.revisions|
      ensures KeepsAt(l', db', i)
    {
      assert KeepsAt(l, db, i);
      var k := db.revisions[i].journalIndex;
      assert db.journal.entries[..m][..k] == db.journal.entries[..k];
    }
  }

  // ---------- Marked accounts are live ----------

  /** Created accounts were not in the store, objects to be restored are not deleted, and every
      marked account of the store is live and not deleted. */
  ghost predicate Anchored(db: DB, x: nat) {
    && (forall e :: e in db.journal.entries ==> EntryOk(e, db.core.stores))
    && (forall a :: Dirties(db.journal.entries, a) || (a == RIPEMD && x > 0) ==> AnchoredAt(db.core, a))
  }

  predicate EntryOk(e: Entry, st: Stores) {
    (e.CreateObjectChange? ==> e.account !in st.accounts) && (e.ResetObjectChange? ==> !e.prev.deleted)
  }

  predicate AnchoredAt(c: Core, a: Address) {
    (a in c.stores.accounts ==> a in c.objects) && (a in c.objects ==> !c.objects[a].deleted)
  }

  lemma DoAnchors(c: Core, op: Op)
    requires c.Valid() && Do(c, op).Ok?
    ensures Anchors(c, op, Do(c, op).value)
  {
    hide Core.Valid, Do, Anchors;
    if Setter(op) {
      SetterAnchors(c, op);
    } else {
      PlainAnchors(c, op);
    }
  }

  /** A step restores and creates soundly, and leaves what it marks anchored. */
  ghost predicate Anchors(c: Core, op: Op, s: Step) {
    && s.core.stores == c.stores
    && (forall e :: e in s.entries ==> EntryOk(e, c.stores))
    && (forall a :: MarkedBy(c, op, a) || AnchoredAt(c, a) ==> AnchoredAt(s.core, a))
  }

  lemma PlainAnchors(c: Core, op: Op)
    requires c.Valid() && !Setter(op) && Do(c, op).Ok?
    ensures Anchors(c, op, Do(c, op).value)
  {
    hide Core.Valid, Do, Anchors;
    if op.CreateAccount? || op.Suicide? {
      ObjectAnchors(c, op);
    } else if op.ReadAccount? || op.ReadState? || op.ReadCommittedState? {
      ReadAnchors(c, op);
    } else {
      CounterAnchors(c, op);
    }
  }

  lemma ObjectAnchors(c: Core, op: Op)
    requires c.Valid() && (op.CreateAccount? || op.Suicide?)
    ensures Do(c, op).Ok? && Anchors(c, op, Do(c, op).value)
  {
    hide Core.Valid, StateObject.Valid, Hollow, StateObject.CodeBytes, StateObject.ValueAt;
    LiveAddress(c, op.a);
    MissingAnchors(c, op.a);
  }

  lemma ReadAnchors(c: Core, op: Op)
    requires c.Valid() && (op.ReadAccount? || op.ReadState? || op.ReadCommittedState?)
    ensures Do(c, op).Ok? && Anchors(c, op, Do(c, op).value)
  {
    hide Core.Valid, StateObject.Valid, StateObject.CodeBytes, StateObject.ValueAt, AnchoredAt, Core.Put, Core.Fill;
    LiveAddress(c, op.a);
    FilledLookup(c, op.a);
    FilledAnchors(c, op.a, map[]);
    if c.Lookup(op.a).Some? && !op.ReadAccount? {
      var so := c.Lookup(op.a).value;
      var r := if op.ReadState? then so.GetState(c.stores, op.slot).0 else so.GetCommittedState(c.stores, op.slot).0;
      FilledAnchors(c, op.a, r.origin);
    }
  }

  lemma FilledLookup(c: Core, a: Address)
    ensures c.Fill(a).Lookup(a) == c.Lookup(a)
  {
  }

  /** Loading an account, and caching words of it, leaves accounts anchored. */
  lemma FilledAnchors(c: Core, a: Address, origin: map<StorageKey, Word>)
    requires c.Lookup(a).Some? ==> c.Lookup(a).value.address == a
    ensures c.Fill(a).stores == c.stores && forall b :: AnchoredAt(c, b) ==> AnchoredAt(c.Fill(a), b)
    ensures c.Lookup(a).Some? ==>
              var d := c.Fill(a).Put(c.Lookup(a).value.(origin := origin));
              d.stores == c.stores && forall b :: AnchoredAt(c, b) ==> AnchoredAt(d, b)
  {
  }

  lemma CounterAnchors(c: Core, op: Op)
    requires !Setter(op) && !op.CreateAccount? && !op.Suicide? && Do(c, op).Ok?
    requires !op.ReadAccount? && !op.ReadState? && !op.ReadCommittedState?
    ensures Anchors(c, op, Do(c, op).value)
  {
    hide AccessLists.AccessList.AddSlot, AccessLists.AccessList.AddAddress, StateObject.CodeBytes, StateObject.ValueAt;
  }

  lemma MissingAnchors(c: Core, a: Address)
    requires c.Valid()
    ensures c.Lookup(a).None? ==> a !in c.stores.accounts
  {
    if a in c.objects {
      assert c.ValidAt(a);
    }
  }

  lemma SetterAnchors(c: Core, op: Op)
    requires c.Valid() && Setter(op) && Do(c, op).Ok?
    ensures Anchors(c, op, Do(c, op).value)
  {
    hide Core.Valid, StateObject.Valid, Marks, Write, StateObject.CodeBytes, StateObject.ValueAt;
    var s := GetOrNew(c, op.a);
    LookupValid(s.core, op.a);
    var so := s.core.objects[op.a];
    MissingAnchors(c, op.a);
    FetchAnchors(c, op.a);
    WrittenAnchors(s.core, so, op);
  }

  lemma FetchAnchors(c: Core, a: Address)
    requires c.Lookup(a).None? ==> a !in c.stores.accounts
    ensures
      var s := GetOrNew(c, a);
      && s.core.stores == c.stores && (forall e :: e in s.entries ==> EntryOk(e, c.stores))
      && (forall b :: b == a || AnchoredAt(c, b) ==> AnchoredAt(s.core, b))
  {
    hide Core.Valid;
  }

  lemma WrittenAnchors(c: Core, so: StateObject, op: Op)
    requires Setter(op) && Write(c, so, op).Ok? && so.address in c.objects && c.objects[so.address] == so && !so.deleted
    ensures
      var s := Write(c, so, op).value;
      && s.core.stores == c.stores && (forall e :: e in s.entries ==> EntryOk(e, c.stores))
      && (forall a :: AnchoredAt(c, a) ==> AnchoredAt(s.core, a))
  {
    hide StateObject.LoadCode, StateObject.Empty;
  }

  lemma {:induction false} UndoAllAnchors(c: Core, es: seq<Entry>, a: Address)
    requires UndoAll(c, es).Ok? && AnchoredAt(c, a)
    requires forall e :: e in es ==> EntryOk(e, c.stores)
    ensures UndoAll(c, es).value.stores == c.stores && AnchoredAt(UndoAll(c, es).value, a)
    decreases |es|
  {
    hide UndoObject, EntryOk, AnchoredAt;
    if es != [] {
      var e := es[|es| - 1];
      assert e in es;
      UndoAnchors(c, e, a);
      UndoAllAnchors(Undo(c, e).value, es[..|es| - 1], a);
    }
  }

  lemma UndoAnchors(c: Core, e: Entry, a: Address)
    requires Undo(c, e).Ok? && AnchoredAt(c, a) && EntryOk(e, c.stores)
    ensures Undo(c, e).value.stores == c.stores && AnchoredAt(Undo(c, e).value, a)
  {
  }

  lemma {:induction false} UndoAllStores(c: Core, es: seq<Entry>)
    requires UndoAll(c, es).Ok?
    ensures UndoAll(c, es).value.stores == c.stores
    decreases |es|
  {
    hide UndoObject;
    if es != [] {
      UndoAllStores(Undo(c, es[|es| - 1]).value, es[..|es| - 1]);
    }
  }

  lemma RevertAnchors(db: DB, id: nat, x: nat)
    requires Anchored(db, x) && db.RevertToSnapshot(id).Ok?
    ensures Anchored(db.RevertToSnapshot(id).value, x)
  {
    hide RevertLoop, Journal.Revert, UndoAll;
    var db' := db.RevertToSnapshot(id).value;
    var m := db.revisions[Search(db.revisions, id)].journalIndex;
    var es := db.journal.entries;
    RevertLoopSplits(db.core, db.journal, m);
    RevertEntries(db.journal, m);
    UndoAllStores(db.core, es[m..]);
    forall a | Dirties(es[..m], a) || (a == RIPEMD && x > 0)
      ensures AnchoredAt(db'.core, a)
    {
      assert es[..m] + es[m..] == es;
      EntriesConcat(es[..m], es[m..], a);
      assert forall e :: e in es[m..] ==> e in es;
      UndoAllAnchors(db.core, es[m..], a);
    }
  }

  lemma OperateAnchors(db: DB, op: Op, x: nat)
    requires db.core.Valid() && Anchored(db, x) && Exec(db, Operate(op)).Ok?
    ensures Anchored(Exec(db, Operate(op)).value, x + if Touches(db.core, Operate(op)) then 1 else 0)
  {
    hide Core.Valid, Do, MarkedBy, AppendAll, Dirties, Resets, Touches;
    var db' := Exec(db, Operate(op)).value;
    var es := Do(db.core, op).value.entries;
    DoAnchors(db.core, op);
    SticksIsTouches(db.core, Operate(op));
    forall a | Dirties(db'.journal.entries, a) || (a == RIPEMD && (x > 0 || Touches(db.core, Operate(op))))
      ensures AnchoredAt(db'.core, a)
    {
      OperationMarks(db.core, op, a);
      EntriesConcat(db.journal.entries, es, a);
    }
  }

  // ---------- The ledger of a run ----------

  /** Everything a run keeps: the ledger is exact, and marked accounts of the store are live. */
  ghost predicate Kept(base: Core, db: DB, l: Ledger, x: nat) {
    Reached(base, db, x) && Keeps(l, db) && Anchored(db, x) && (l.stuck <==> x > 0)
  }

  lemma KeptStep(base: Core, db: DB, l: Ledger, act: Action, x: nat)
    requires Kept(base, db, l, x) && Exec(db, act).Ok? && SafeStep(db, act, x)
    ensures Kept(base, Exec(db, act).value, Enter(l, db.core, act), x + if Touches(db.core, act) then 1 else 0)
  {
    hide Tracks, Undoes, Do, RevertLoop, Keeps, Anchored, SafeStep, Touches, Sticks, MarkedBy, ResetBy, AppendAll;
    UndoesValid(db.core, db.journal.entries, base);
    ReachedStep(base, db, act, x);
    SticksIsTouches(db.core, act);
    match act
    case Operate(op) =>
      OperateKeeps(l, db, op);
      OperateAnchors(db, op, x);
    case TakeSnapshot =>
      NoTouch(db.core, act);
      SnapshotKeeps(l, db);
      AnchoredSame(db, db.Snapshot().0, x);
    case RevertTo(id) =>
      NoTouch(db.core, act);
      RevertKeeps(l, db, id);
      RevertAnchors(db, id, x);
  }

  lemma AnchoredSame(db: DB, db': DB, x: nat)
    requires Anchored(db, x) && db'.core == db.core && db'.journal == db.journal
    ensures Anchored(db', x)
  {
  }

  lemma {:induction false} KeptRun(base: Core, db: DB, l: Ledger, acts: seq<Action>, x: nat)
    requires Kept(base, db, l, x) && Run(db, acts).Ok? && SafeRun(db, acts, x)
    ensures Kept(base, Run(db, acts).value, Ledgered(l, db, acts), x + TouchesIn(db, acts))
    decreases |acts|
  {
    hide Kept, Exec, Touches, SafeStep, Enter;
    if acts != [] {
      KeptStep(base, db, l, acts[0], x);
      KeptRun(base, Exec(db, acts[0]).value, Enter(l, db.core, acts[0]), acts[1..], x + if Touches(db.core, acts[0]) then 1 else 0);
    }
  }

  lemma KeptStart(db: DB)
    requires AtRest(db)
    ensures Kept(db.core, db, NewLedger(db), 0)
  {
    hide Tracks, Undoes, Settled, Core.Valid;
    ReachedStart(db);
    assert db.journal.entries == [];
    forall a
      ensures !Dirties([], a) && !Resets([], a)
    {
      NoEntries(a);
    }
  }

  /** The ledger says which accounts are dirty. */
  lemma KeptDirty(base: Core, db: DB, l: Ledger, x: nat, a: Address)
    requires Kept(base, db, l, x)
    ensures a in DirtyAddresses(db.journal.dirties) <==> a in l.Dirty()
    ensures a in l.Dirty() && db.core.Lookup(a).Some? ==> a in db.core.objects
    ensures l.resets <= l.Dirty() ==> ResetsMarked(db)
    ensures LiveMarks(db)
  {
    hide Tracks, Undoes, Dirties, DirtyAddresses;
    ListedIs(db.journal, x, a);
    forall b | IsDirty(db, b)
      ensures !db.core.objects[b].deleted
    {
      ListedIs(db.journal, x, b);
      assert AnchoredAt(db.core, b);
    }
    forall e | l.resets <= l.Dirty() && e in db.journal.entries && e.ResetObjectChange?
      ensures e.prev.address in DirtyAddresses(db.journal.dirties)
    {
      var i :| 0 <= i < |db.journal.entries| && db.journal.entries[i] == e;
      assert Resets(db.journal.entries, e.prev.address);
      ListedIs(db.journal, x, e.prev.address);
    }
  }

  /** After every run with safe reverts from a database at rest, exactly the accounts of the
      ledger are dirty. */
  lemma RunMarks(base: DB, acts: seq<Action>, a: Address)
    requires AtRest(base) && Run(base, acts).Ok? && SafeRun(base, acts, 0)
    ensures a in DirtyAddresses(Run(base, acts).value.journal.dirties) <==> a in Ledgered(NewLedger(base), base, acts).Dirty()
  {
    hide Kept, AtRest, Run, SafeRun, Ledgered, Ledger.Dirty, DirtyAddresses;
    KeptStart(base);
    KeptRun(base.core, base, NewLedger(base), acts, 0);
    KeptDirty(base.core, Run(base, acts).value, Ledgered(NewLedger(base), base, acts), TouchesIn(base, acts), a);
  }

  // ---------- A transaction, without the journal ----------

  /** What a new database over the stores reads of a: nothing if a is gone, suicided, or marked and
      hollow where such are deleted, and otherwise what the live one read. */
  ghost predicate Survives(c: Core, marked: bool, f: Stores, a: Address, del: bool) {
    var r := Read(c, a);
    var anew := NewDB(f).core;
    if r.None? || r.value.suicided || (del && marked && Hollow(r.value)) then Read(anew, a) == None
    else Read(anew, a) == r && forall slot :: ReadWord(anew, a, slot) == ReadWord(c, a, slot)
  }

  lemma FaithfulSurvives(db: DB, f: Stores, a: Address, marked: bool, del: bool)
    requires db.core.Valid() && WrittenFaithfully(db, f, a, del)
    requires marked <==> a in DirtyAddresses(db.journal.dirties)
    requires marked && db.core.Lookup(a).Some? ==> a in db.core.objects
    ensures Survives(db.core, marked, f, a, del)
  {
    hide Core.Valid, StateObject.Valid, DirtyAddresses, StateObject.CodeBytes;
    var live := db.core.Lookup(a);
    var anew := NewDB(f).core;
    assert anew.Lookup(a) == if a in f.accounts then Some(NewObject(a, f.accounts[a])) else None;
    if live.Some? {
      LookupValid(db.core, a);
      StoresValid(db.core);
      HollowIsEmpty(live.value, db.core.stores);
    }
  }

  /** A transaction: after any run with safe reverts in which recreated accounts are also marked,
      Finalise and Commit write every account as a reader last saw it, except that suicided
      accounts and, when empty ones are to be deleted, marked hollow ones are gone.  Marks are
      those of the ledger. */
  lemma TransactionMeans(base: DB, acts: seq<Action>, order: seq<Address>, del: bool)
    requires AtRest(base) && Run(base, acts).Ok? && SafeRun(base, acts, 0)
    requires var l := Ledgered(NewLedger(base), base, acts);
             l.resets <= l.Dirty()
    requires var db := Run(base, acts).value;
             Lists(order, db.core.objects.Keys) && WriteBack(db, order, del).Ok?
    ensures var db := Run(base, acts).value;
            var f := WriteBack(db, order, del).value;
            AtRest(f) && forall a :: Survives(db.core, a in Ledgered(NewLedger(base), base, acts).Dirty(), f.core.stores, a, del)
  {
    hide Kept, AtRest, Run, SafeRun, Ledgered, Ledger.Dirty, DirtyAddresses, WriteBack, Lists, WrittenFaithfully, Survives,
      Core.Valid, ResetsMarked, TouchesIn;
    var db := Run(base, acts).value;
    var l := Ledgered(NewLedger(base), base, acts);
    KeptStart(base);
    KeptRun(base.core, base, NewLedger(base), acts, 0);
    KeptDirty(base.core, db, l, TouchesIn(base, acts), 0);
    TransactionWritesBack(base, acts, order, del);
    KeptValid(base.core, db, l, TouchesIn(base, acts));
    var f := WriteBack(db, order, del).value;
    forall a
      ensures Survives(db.core, a in l.Dirty(), f.core.stores, a, del)
    {
      KeptDirty(base.core, db, l, TouchesIn(base, acts), a);
      FaithfulSurvives(db, f.core.stores, a, a in l.Dirty(), del);
    }
  }

  lemma KeptValid(base: Core, db: DB, l: Ledger, x: nat)
    requires Kept(base, db, l, x)
    ensures db.core.Valid()
  {
    hide Keeps, Anchored, Tracks;
    UndoesValid(db.core, db.journal.entries, base);
  }

  /** The bank has blacklisted an account that a transaction would have to write. */
  ghost predicate Unwritable(c: Core, marked: set<Address>, del: bool, a: Address) {
    && a in marked && a in c.stores.blacklist && Read(c, a).Some?
    && !Read(c, a).value.suicided && !(del && Hollow(Read(c, a).value))
  }

  /** Finalise and Commit fail after a run if and only if a marked account that is neither suicided
      nor to be deleted for being hollow is blacklisted. */
  lemma TransactionFails(base: DB, acts: seq<Action>, order: seq<Address>, del: bool)
    requires AtRest(base) && Run(base, acts).Ok? && SafeRun(base, acts, 0)
    requires Lists(order, Run(base, acts).value.core.objects.Keys)
    ensures var db := Run(base, acts).value;
            WriteBack(db, order, del).Panic? <==>
            exists a :: Unwritable(db.core, Ledgered(NewLedger(base), base, acts).Dirty(), del, a)
  {
    hide Kept, AtRest, Run, SafeRun, Ledgered, Ledger.Dirty, DirtyAddresses, WriteBack, Lists, Core.Valid, TouchesIn,
      Unwritable, Barred;
    var db := Run(base, acts).value;
    var l := Ledgered(NewLedger(base), base, acts);
    var x := TouchesIn(base, acts);
    KeptStart(base);
    KeptRun(base.core, base, NewLedger(base), acts, 0);
    KeptValid(base.core, db, l, x);
    KeptReady(base.core, db, l, x);
    WriteBackFails(db, order, del);
    forall a
      ensures a in DirtyAddresses(db.journal.dirties) && Barred(db.core, a, del) <==> Unwritable(db.core, l.Dirty(), del, a)
    {
      KeptDirty(base.core, db, l, x, a);
      BarredReads(db, l, a, del);
    }
  }

  lemma KeptReady(base: Core, db: DB, l: Ledger, x: nat)
    requires Kept(base, db, l, x)
    ensures Distinct(db.journal.dirties) && db.core.objectsDirty == {}
  {
    hide Keeps, Anchored, Tracks, Undoes;
    TracksDistinct(db.journal, x);
  }

  lemma BarredReads(db: DB, l: Ledger, a: Address, del: bool)
    requires db.core.Valid() && (a in DirtyAddresses(db.journal.dirties) <==> a in l.Dirty())
    requires a in l.Dirty() && db.core.Lookup(a).Some? ==> a in db.core.objects
    requires LiveMarks(db)
    ensures a in DirtyAddresses(db.journal.dirties) && Barred(db.core, a, del) <==> Unwritable(db.core, l.Dirty(), del, a)
  {
    hide Core.Valid, StateObject.Valid, DirtyAddresses, StateObject.CodeBytes, Ledger.Dirty, Hollow, StateObject.Empty;
    if a in db.core.objects && a in l.Dirty() {
      assert IsDirty(db, a);
      LookupValid(db.core, a);
      StoresValid(db.core);
      HollowIsEmpty(db.core.objects[a], db.core.stores);
    }
  }

  /** Adding nothing to a hollow account of a database at rest deletes it at the end of the
      transaction; without that call it stays. */
  lemma TouchDeletes(base: DB, a: Address, order: seq<Address>)
    requires AtRest(base) && Read(base.core, a).Some? && Hollow(Read(base.core, a).value)
    ensures Exec(base, Operate(AddBalance(a, 0))).Ok?
    ensures var db := Exec(base, Operate(AddBalance(a, 0))).value;
            Lists(order, db.core.objects.Keys) && WriteBack(db, order, true).Ok? ==>
              Read(NewDB(WriteBack(db, order, true).value.core.stores).core, a) == None
    ensures Lists(order, base.core.objects.Keys) && WriteBack(base, order, true).Ok? ==>
              Read(NewDB(WriteBack(base, order, true).value.core.stores).core, a) == Read(base.core, a)
  {
    hide Core.Valid, Settled, WriteBack, Lists, Do, Tracks, Undoes, StateObject.CodeBytes;
    var act := Operate(AddBalance(a, 0));
    TouchSucceeds(base, a);
    var db := Exec(base, act).value;
    assert Run(base, [act]) == Ok(db);
    assert Run(base, []) == Ok(base);
    SettledHere(base.core, a);
    var l := Enter(NewLedger(base), base.core, act);
    LedgeredOne(base, act);
    if Lists(order, db.core.objects.Keys) && WriteBack(db, order, true).Ok? {
      TransactionMeans(base, [act], order, true);
      OperationMeans(base.core, AddBalance(a, 0), a, 0);
      assert Survives(db.core, a in l.Dirty(), WriteBack(db, order, true).value.core.stores, a, true);
    }
    if Lists(order, base.core.objects.Keys) && WriteBack(base, order, true).Ok? {
      TransactionMeans(base, [], order, true);
      assert Survives(base.core, a in NewLedger(base).Dirty(), WriteBack(base, order, true).value.core.stores, a, true);
    }
  }

  lemma TouchSucceeds(base: DB, a: Address)
    requires AtRest(base) && Read(base.core, a).Some?
    ensures Exec(base, Operate(AddBalance(a, 0))).Ok?
  {
    hide Core.Valid, Settled, Do, Tracks, Undoes;
    ReachedStart(base);
    OperationMeans(base.core, AddBalance(a, 0), a, 0);
    AppendAllTracks(base.journal, 0, Do(base.core, AddBalance(a, 0)).value.entries);
  }

  lemma LedgeredOne(base: DB, act: Action)
    requires Exec(base, act).Ok?
    ensures Ledgered(NewLedger(base), base, [act]) == Enter(NewLedger(base), base.core, act)
    ensures Ledgered(NewLedger(base), base, []) == NewLedger(base)
  {
    hide Exec, Enter;
    assert [act][1..] == [];
  }
}
