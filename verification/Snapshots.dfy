/** Snapshots over whole runs of the state database. */
module Snapshots {
  import opened EvmTypes
  import opened StateObjects
  import AccessLists
  import opened Journals
  import opened StateDBs
  import opened Reverting

  datatype Revision = Revision(id: nat, journalIndex: nat)

  datatype DB = DB(core: Core, journal: Journal, revisions: seq<Revision>, nextRevision: nat) {

    /** Revisions have increasing ids below the next one, and point into the journal in order. */
    ghost predicate RevisionsOk() {
      && (forall i, j :: 0 <= i < j < |revisions| ==>
            revisions[i].id < revisions[j].id && revisions[i].journalIndex <= revisions[j].journalIndex)
      && (forall i :: 0 <= i < |revisions| ==>
            revisions[i].id < nextRevision && revisions[i].journalIndex <= |journal.entries|)
    }

    ghost predicate Valid() {
      core.Valid() && RevisionsOk()
    }

    /** Snapshot. */
    function Snapshot(): (DB, nat) {
      (this.(revisions := revisions + [Revision(nextRevision, |journal.entries|)], nextRevision := nextRevision + 1),
       nextRevision)
    }

    /** RevertToSnapshot: panics on an id that is not valid. */
    function RevertToSnapshot(id: nat): Outcome<DB> {
      var idx := Search(revisions, id);
      if idx == |revisions| || revisions[idx].id != id then Panic
      else if revisions[idx].journalIndex > |journal.entries| then Panic
      else
        var r := RevertLoop(core, journal, revisions[idx].journalIndex);
        if r.Panic? then Panic
        else Ok(DB(r.value.0, r.value.1, revisions[..idx], nextRevision))
    }
  }

  /** A new database over some stores. */
  function NewDB(st: Stores): DB {
    DB(StateDBs.Core.Core(st, map[], {}, 0, 0, 0, 0, 0, [], map[], AccessLists.EMPTY), Journals.EMPTY, [], 0)
  }

  /** sort.Search: the first position whose id is at least the given one. */
  function Search(revs: seq<Revision>, id: nat): (i: nat)
    ensures i <= |revs|
    ensures i < |revs| ==> revs[i].id >= id
    ensures forall k :: 0 <= k < i ==> revs[k].id < id
  {
    if revs == [] || revs[0].id >= id then 0 else 1 + Search(revs[1..], id)
  }

  lemma SearchUnique(revs: seq<Revision>, id: nat, i: nat)
    requires i <= |revs| && (i < |revs| ==> revs[i].id >= id)
    requires forall k :: 0 <= k < i ==> revs[k].id < id
    ensures i == Search(revs, id)
  {
  }

  /** The loop of journal.revert: undo the last entry, then its dirty mark. */
  function RevertLoop(c: Core, j: Journal, n: nat): Outcome<(Core, Journal)>
    requires n <= |j.entries|
    decreases |j.entries|
  {
    if |j.entries| == n then Ok((c, j))
    else
      var u := Undo(c, j.entries[|j.entries| - 1]);
      if u.Panic? then Panic
      else
        var p := j.Pop();
        if p.Panic? then Panic else RevertLoop(u.value, p.value, n)
  }

  /** Append several entries. */
  function AppendAll(j: Journal, es: seq<Entry>): (r: Outcome<Journal>)
    ensures r.Ok? ==> r.value.entries == j.entries + es
    decreases |es|
  {
    if es == [] then Ok(j)
    else
      var k := j.Append(es[0]);
      if k.Panic? then Panic else AppendAll(k.value, es[1..])
  }

  /** One call by the EVM. */
  datatype Action = Operate(op: Op) | TakeSnapshot | RevertTo(id: nat)

  function Exec(db: DB, act: Action): Outcome<DB> {
    match act
    case Operate(op) =>
      var s := Do(db.core, op);
      if s.Panic? then Panic
      else
        var j := AppendAll(db.journal, s.value.entries);
        if j.Panic? then Panic else Ok(db.(core := s.value.core, journal := j.value))
    case TakeSnapshot => Ok(db.Snapshot().0)
    case RevertTo(id) => db.RevertToSnapshot(id)
  }

  function Run(db: DB, acts: seq<Action>): Outcome<DB>
    decreases |acts|
  {
    if acts == [] then Ok(db)
    else
      var r := Exec(db, acts[0]);
      if r.Panic? then Panic else Run(r.value, acts[1..])
  }

  // ---------- The revert loop ----------

  /** The loop undoes the state and the dirty list independently of each other. */
  lemma {:induction false} RevertLoopSplits(c: Core, j: Journal, n: nat)
    requires n <= |j.entries|
    ensures RevertLoop(c, j, n).Ok? <==> UndoAll(c, j.entries[n..]).Ok? && j.Revert(n).Ok?
    ensures RevertLoop(c, j, n).Ok? ==>
              RevertLoop(c, j, n).value == (UndoAll(c, j.entries[n..]).value, j.Revert(n).value)
    decreases |j.entries|
  {
    hide Undo, Journal.Pop;
    var es := j.entries[n..];
    if |j.entries| > n {
      var m := |j.entries| - 1;
      assert es[|es| - 1] == j.entries[m] && es[..|es| - 1] == j.entries[..m][n..];
      if Undo(c, j.entries[m]).Ok? && j.Pop().Ok? {
        RevertLoopSplits(Undo(c, j.entries[m]).value, j.Pop().value, n);
      }
    }
  }

  lemma {:induction false} RevertEntries(j: Journal, n: nat)
    requires n <= |j.entries| && j.Revert(n).Ok?
    ensures j.Revert(n).value.entries == j.entries[..n]
    decreases |j.entries|
  {
    hide Journal.Pop;
    if |j.entries| > n {
      RevertEntries(j.Pop().value, n);
    }
  }

  // ---------- Since a snapshot ----------

  /** db was reached from a snapshot of base that is still valid: undoing the entries since
      restores base, and the revisions up to the snapshot are in place. */
  ghost predicate Since(base: DB, db: DB) {
    var n := |base.journal.entries|;
    var r := |base.revisions|;
    && db.RevisionsOk()
    && base.journal.entries <= db.journal.entries
    && base.nextRevision < db.nextRevision
    && r < |db.revisions| && db.revisions[..r] == base.revisions
    && db.revisions[r] == Revision(base.nextRevision, n)
    && Undoes(db.core, db.journal.entries[n..], base.core)
  }

  lemma SinceStart(base: DB)
    requires base.Valid()
    ensures Since(base, base.Snapshot().0)
  {
    var db := base.Snapshot().0;
    assert db.revisions[..|base.revisions|] == base.revisions;
    CoversReflexive(base.core);
    NothingToUndo(db.core, base.core);
    assert db.journal.entries[|base.journal.entries|..] == [];
  }

  lemma SinceOperate(base: DB, db: DB, op: Op)
    requires Since(base, db) && Exec(db, Operate(op)).Ok?
    ensures Since(base, Exec(db, Operate(op)).value)
  {
    hide Undoes, Do;
    var n := |base.journal.entries|;
    var s := Do(db.core, op).value;
    var db' := Exec(db, Operate(op)).value;
    UndoesValid(db.core, db.journal.entries[n..], base.core);
    DoUndone(db.core, op);
    UndoesCompose(s.core, s.entries, db.core, db.journal.entries[n..], base.core);
    assert db'.journal.entries[n..] == db.journal.entries[n..] + s.entries;
  }

  lemma UndoesValid(c: Core, es: seq<Entry>, t: Core)
    requires Undoes(c, es, t)
    ensures c.Valid()
  {
  }

  lemma SinceSnapshot(base: DB, db: DB)
    requires Since(base, db)
    ensures Since(base, db.Snapshot().0)
  {
    hide Undoes;
    var db' := db.Snapshot().0;
    assert db'.revisions[..|base.revisions|] == db.revisions[..|base.revisions|];
  }

  /** The position of a valid id is the one Search finds. */
  lemma SearchFinds(db: DB, i: nat)
    requires db.RevisionsOk() && i < |db.revisions|
    ensures Search(db.revisions, db.revisions[i].id) == i
  {
  }

  /** Reverting to a revision with at least n entries restores part of the way. */
  lemma RevertPartWay(base: Core, db: DB, n: nat, m: nat)
    requires n <= m <= |db.journal.entries|
    requires Undoes(db.core, db.journal.entries[n..], base)
    requires RevertLoop(db.core, db.journal, m).Ok?
    ensures var (c, j) := RevertLoop(db.core, db.journal, m).value;
            j.entries == db.journal.entries[..m] && Undoes(c, j.entries[n..], base)
  {
    hide Undoes, RevertLoop, Journal.Revert, UndoAll;
    var es := db.journal.entries;
    RevertLoopSplits(db.core, db.journal, m);
    RevertEntries(db.journal, m);
    assert es[n..] == es[..m][n..] + es[m..];
    UndoesSplit(db.core, es[..m][n..], es[m..], base);
  }

  lemma SinceRevert(base: DB, db: DB, id: nat)
    requires Since(base, db) && db.RevertToSnapshot(id).Ok? && id > base.nextRevision
    ensures Since(base, db.RevertToSnapshot(id).value)
  {
    hide Undoes, RevertLoop;
    var db' := db.RevertToSnapshot(id).value;
    var idx := Search(db.revisions, id);
    var r, n := |base.revisions|, |base.journal.entries|;
    assert idx > r;
    var m := db.revisions[idx].journalIndex;
    assert db.revisions[r].journalIndex <= m;
    RevertPartWay(base.core, db, n, m);
    assert db'.revisions[..r] == db.revisions[..r];
    assert db.journal.entries[..m][..n] == db.journal.entries[..n];
  }

  /** Runs that do not revert to the snapshot or below keep it. */
  ghost predicate Above(acts: seq<Action>, id: nat) {
    forall i :: 0 <= i < |acts| && acts[i].RevertTo? ==> acts[i].id > id
  }

  lemma {:induction false} SinceRun(base: DB, db: DB, acts: seq<Action>)
    requires Since(base, db) && Above(acts, base.nextRevision) && Run(db, acts).Ok?
    ensures Since(base, Run(db, acts).value)
    decreases |acts|
  {
    hide Since;
    if acts != [] {
      match acts[0] {
        case Operate(op) => SinceOperate(base, db, op);
        case TakeSnapshot => SinceSnapshot(base, db);
        case RevertTo(id) => SinceRevert(base, db, id);
      }
      SinceRun(base, Exec(db, acts[0]).value, acts[1..]);
    }
  }

  // ---------- The main theorem ----------

  /** For every run of operations, snapshots and reverts after Snapshot() returned an id
      and that does not revert below it, RevertToSnapshot(id) restores the state exactly as
      any reader sees it, along with the journal entries and the revisions; no nil account,
      missing access-list slot or invalid id can make it panic.  The one panic left is a
      stale 0x03 in the dirty list, see RevertExact. */
  lemma RevertRestores(base: DB, acts: seq<Action>)
    requires base.Valid()
    requires Above(acts, base.Snapshot().1) && Run(base.Snapshot().0, acts).Ok?
    ensures var db := Run(base.Snapshot().0, acts).value;
            var r := db.RevertToSnapshot(base.Snapshot().1);
            && |base.journal.entries| <= |db.journal.entries|
            && (r.Ok? <==> db.journal.Revert(|base.journal.entries|).Ok?)
            && (r.Ok? ==>
                  && Indistinguishable(r.value.core, base.core)
                  && r.value.journal == db.journal.Revert(|base.journal.entries|).value
                  && r.value.journal.entries == base.journal.entries
                  && r.value.revisions == base.revisions
                  && r.value.Valid())
  {
    SinceStart(base);
    SinceRun(base, base.Snapshot().0, acts);
    SinceReverts(base, Run(base.Snapshot().0, acts).value);
  }

  lemma SinceReverts(base: DB, db: DB)
    requires Since(base, db)
    ensures var n := |base.journal.entries|;
            var r := db.RevertToSnapshot(base.nextRevision);
            && n <= |db.journal.entries|
            && (r.Ok? <==> db.journal.Revert(n).Ok?)
            && (r.Ok? ==>
                  && Indistinguishable(r.value.core, base.core)
                  && r.value.journal == db.journal.Revert(n).value
                  && r.value.journal.entries == base.journal.entries
                  && r.value.revisions == base.revisions
                  && r.value.Valid())
  {
    hide Undoes, RevertLoop, Journal.Revert, UndoAll, Indistinguishable, Covers;
    var n := |base.journal.entries|;
    var es := db.journal.entries;
    SearchFinds(db, |base.revisions|);
    RevertLoopSplits(db.core, db.journal, n);
    assert [] + es[n..] == es[n..];
    UndoesSplit(db.core, [], es[n..], base.core);
    var c := UndoAll(db.core, es[n..]).value;
    UndoneIs(c, base.core);
    if db.journal.Revert(n).Ok? {
      RevertEntries(db.journal, n);
    }
  }

  lemma UndoneIs(c: Core, t: Core)
    requires Undoes(c, [], t)
    ensures c.Valid() && Indistinguishable(c, t)
  {
    CoversIndistinguishable(c, t);
  }

  // ---------- The dirty list over runs ----------

  /** The action journals a touch of 0x03: a zero-value AddBalance to a missing or empty one. */
  predicate Touches(c: Core, act: Action) {
    && act.Operate? && act.op == AddBalance(RIPEMD, 0)
    && (c.Lookup(RIPEMD).None? || c.Lookup(RIPEMD).value.Empty())
  }

  /** The number of touches of 0x03 in a run, also of those reverted later. */
  function TouchesIn(db: DB, acts: seq<Action>): nat
    decreases |acts|
  {
    if acts == [] then 0
    else
      (if Touches(db.core, acts[0]) then 1 else 0)
      + if Exec(db, acts[0]).Ok? then TouchesIn(Exec(db, acts[0]).value, acts[1..]) else 0
  }

  /** Safe for any journal: after reverting to n entries every address listed before 0x03 is
      still listed rightly. */
  ghost predicate SafeAt(j: Journal, x: nat, n: nat)
    requires n <= |j.entries|
  {
    x == 0 || (RIPEMD in j.index && forall q :: 0 <= q < j.index[RIPEMD] && q < |j.dirties| ==> Within(j.entries, j.dirties[q].address, n))
  }

  lemma SafeAtIs(j: Journal, x: nat, n: nat)
    requires Tracks(j, x) && n <= |j.entries|
    ensures SafeAt(j, x, n) <==> Safe(j, x, n)
  {
  }

  /** A revert to a valid id is safe. */
  ghost predicate SafeStep(db: DB, act: Action, x: nat) {
    act.RevertTo? ==>
      var idx := Search(db.revisions, act.id);
      idx < |db.revisions| && db.revisions[idx].id == act.id && db.revisions[idx].journalIndex <= |db.journal.entries| ==>
        SafeAt(db.journal, x, db.revisions[idx].journalIndex)
  }

  /** Every revert of a run is safe, starting from x touches. */
  ghost predicate SafeRun(db: DB, acts: seq<Action>, x: nat)
    decreases |acts|
  {
    acts == [] ||
    (SafeStep(db, acts[0], x) &&
     (Exec(db, acts[0]).Ok? ==>
        SafeRun(Exec(db, acts[0]).value, acts[1..], x + if Touches(db.core, acts[0]) then 1 else 0)))
  }

  function TouchCount(es: seq<Entry>): nat {
    if es == [] then 0 else (if es[0] == TouchChange(RIPEMD) then 1 else 0) + TouchCount(es[1..])
  }

  lemma {:induction false} TouchCountConcat(es: seq<Entry>, fs: seq<Entry>)
    ensures TouchCount(es + fs) == TouchCount(es) + TouchCount(fs)
  {
    if es == [] {
      assert es + fs == fs;
    } else {
      assert (es + fs)[1..] == es[1..] + fs;
      TouchCountConcat(es[1..], fs);
    }
  }

  lemma WriteTouches(c: Core, so: StateObject, op: Op)
    requires Setter(op) && Write(c, so, op).Ok? && so.address == op.a
    ensures TouchCount(Write(c, so, op).value.entries) == if op == AddBalance(RIPEMD, 0) && so.Empty() then 1 else 0
  {
    hide StateObject.Empty, StateObject.GetState, StateObject.WriteDirty, StateObject.LoadCode;
    assert forall e :: TouchCount([e]) == if e == TouchChange(RIPEMD) then 1 else 0 by {
      assert forall e: Entry :: [e][1..] == [];
    }
  }

  /** An operation journals a touch of 0x03 exactly when it touches an empty one. */
  lemma DoTouches(c: Core, op: Op)
    requires c.Valid() && Do(c, op).Ok?
    ensures TouchCount(Do(c, op).value.entries) == if Touches(c, Operate(op)) then 1 else 0
  {
    hide Core.Valid, StateObject.Valid, Write, StateObject.Empty;
    if Setter(op) {
      var s := GetOrNew(c, op.a);
      LookupValid(s.core, op.a);
      WriteTouches(s.core, s.core.objects[op.a], op);
      TouchCountConcat(s.entries, Write(s.core, s.core.objects[op.a], op).value.entries);
      FetchTouches(c, op.a);
    } else {
      PlainTouches(c, op);
    }
  }

  /** Fetching journals no touch, and a created object is empty. */
  lemma FetchTouches(c: Core, a: Address)
    requires c.Valid()
    ensures
      var s := GetOrNew(c, a);
      && TouchCount(s.entries) == 0
      && (c.Lookup(a).None? ==> s.core.objects[a].Empty())
      && (c.Lookup(a).Some? ==> s.core.objects[a] == c.Lookup(a).value)
  {
    var s := GetOrNew(c, a);
    assert s.entries == [] || s.entries[1..] == [];
    assert c.Lookup(a).Some? ==> s.core.Lookup(a) == c.Lookup(a);
  }

  lemma PlainTouches(c: Core, op: Op)
    requires !Setter(op) && Do(c, op).Ok?
    ensures TouchCount(Do(c, op).value.entries) == 0
  {
    var es := Do(c, op).value.entries;
    assert TouchChange(RIPEMD) !in es;
    NoTouches(es);
  }

  lemma {:induction false} NoTouches(es: seq<Entry>)
    ensures TouchCount(es) == 0 <==> TouchChange(RIPEMD) !in es
  {
    if es != [] {
      NoTouches(es[1..]);
      assert es == [es[0]] + es[1..];
    }
  }

  lemma {:induction false} AppendAllTracks(j: Journal, x: nat, es: seq<Entry>)
    requires Tracks(j, x)
    ensures AppendAll(j, es).Ok? && Tracks(AppendAll(j, es).value, x + TouchCount(es))
    decreases |es|
  {
    hide Tracks, Journal.Append;
    if es != [] {
      AppendTracks(j, x, es[0]);
      AppendAllTracks(j.Append(es[0]).value, x + if es[0] == TouchChange(RIPEMD) then 1 else 0, es[1..]);
    }
  }

  /** An action whose revert is safe keeps the dirty list exact up to the touches so far. */
  lemma ExecTracks(db: DB, act: Action, x: nat)
    requires db.core.Valid() && Tracks(db.journal, x) && Exec(db, act).Ok? && SafeStep(db, act, x)
    ensures Tracks(Exec(db, act).value.journal, x + if Touches(db.core, act) then 1 else 0)
  {
    hide Tracks, RevertLoop, Journal.Revert, Do, Touches, SafeAt, AppendAll;
    match act
    case Operate(op) =>
      DoTouches(db.core, op);
      AppendAllTracks(db.journal, x, Do(db.core, op).value.entries);
    case TakeSnapshot =>
      NoTouch(db.core, act);
    case RevertTo(id) =>
      NoTouch(db.core, act);
      var m := db.revisions[Search(db.revisions, id)].journalIndex;
      RevertLoopSplits(db.core, db.journal, m);
      SafeAtIs(db.journal, x, m);
      RevertExact(db.journal, x, m);
  }

  lemma NoTouch(c: Core, act: Action)
    requires !act.Operate?
    ensures !Touches(c, act)
  {
  }

  lemma SinceValid(base: DB, db: DB)
    requires Since(base, db)
    ensures db.core.Valid()
  {
    UndoesValid(db.core, db.journal.entries[|base.journal.entries|..], base.core);
  }

  /** Runs with safe reverts keep the dirty list exact up to their touches of 0x03. */
  lemma {:induction false} RunTracks(base: DB, db: DB, acts: seq<Action>, x: nat)
    requires Since(base, db) && Above(acts, base.nextRevision) && Run(db, acts).Ok?
    requires Tracks(db.journal, x) && SafeRun(db, acts, x)
    ensures Tracks(Run(db, acts).value.journal, x + TouchesIn(db, acts))
    decreases |acts|
  {
    hide Since, Tracks, Exec, Touches, SafeStep;
    if acts != [] {
      SinceRun(base, db, [acts[0]]);
      assert Run(db, [acts[0]]) == Exec(db, acts[0]);
      SinceValid(base, db);
      ExecTracks(db, acts[0], x);
      RunTracks(base, Exec(db, acts[0]).value, acts[1..], x + if Touches(db.core, acts[0]) then 1 else 0);
    }
  }

  /** RevertToSnapshot succeeds with a right dirty index if and only if it is safe: every address
      listed before an extra-marked 0x03 has an entry older than the snapshot. */
  lemma RevertIffSafe(base: DB, acts: seq<Action>, x: nat)
    requires base.Valid() && Tracks(base.journal, x)
    requires Above(acts, base.Snapshot().1) && Run(base.Snapshot().0, acts).Ok? && SafeRun(base.Snapshot().0, acts, x)
    ensures var db := Run(base.Snapshot().0, acts).value;
            var r := db.RevertToSnapshot(base.Snapshot().1);
            var y := x + TouchesIn(base.Snapshot().0, acts);
            && |base.journal.entries| <= |db.journal.entries| && Tracks(db.journal, y)
            && (r.Ok? && r.value.journal.IndexOk() <==> SafeAt(db.journal, y, |base.journal.entries|))
            && (SafeAt(db.journal, y, |base.journal.entries|) ==>
                  Indistinguishable(r.value.core, base.core) && Tracks(r.value.journal, y))
  {
    hide Since, Exec, Indistinguishable, Journal.Revert, DB.RevertToSnapshot, Tracks, SafeRun, SafeAt, TouchesIn, Journal.IndexOk;
    var db := Run(base.Snapshot().0, acts).value;
    var y := x + TouchesIn(base.Snapshot().0, acts);
    SinceStart(base);
    RunTracks(base, base.Snapshot().0, acts, x);
    RevertRestores(base, acts);
    SafeAtIs(db.journal, y, |base.journal.entries|);
    RevertExact(db.journal, y, |base.journal.entries|);
  }

  // ---------- Runs that do not touch an empty 0x03 ----------

  /** The dirty list is exact and carries no extra mark. */
  ghost predicate Clean(j: Journal) {
    Tracks(j, 0) && TouchChange(RIPEMD) !in j.entries
  }

  lemma {:induction false} TouchFreeSafe(db: DB, acts: seq<Action>)
    requires TouchesIn(db, acts) == 0
    ensures SafeRun(db, acts, 0)
    decreases |acts|
  {
    hide Exec, Touches;
    if acts != [] && Exec(db, acts[0]).Ok? {
      TouchFreeSafe(Exec(db, acts[0]).value, acts[1..]);
    }
  }

  lemma {:induction false} AppendAllClean(j: Journal, es: seq<Entry>)
    requires Clean(j) && TouchCount(es) == 0
    ensures AppendAll(j, es).Ok? && Clean(AppendAll(j, es).value)
  {
    AppendAllTracks(j, 0, es);
    NoTouches(es);
  }

  lemma RevertClean(j: Journal, n: nat)
    requires Clean(j) && n <= |j.entries|
    ensures j.Revert(n).Ok? && Clean(j.Revert(n).value) && j.Revert(n).value.entries == j.entries[..n]
  {
    RevertExact(j, 0, n);
  }

  lemma ExecClean(db: DB, act: Action)
    requires db.core.Valid() && Clean(db.journal) && Exec(db, act).Ok? && !Touches(db.core, act)
    ensures Clean(Exec(db, act).value.journal)
  {
    hide Clean, RevertLoop, Journal.Revert, Do, Touches;
    match act
    case Operate(op) =>
      DoTouches(db.core, op);
      AppendAllClean(db.journal, Do(db.core, op).value.entries);
    case TakeSnapshot =>
    case RevertTo(id) =>
      var m := db.revisions[Search(db.revisions, id)].journalIndex;
      RevertLoopSplits(db.core, db.journal, m);
      RevertClean(db.journal, m);
  }

  lemma {:induction false} RunClean(base: DB, db: DB, acts: seq<Action>)
    requires Since(base, db) && Above(acts, base.nextRevision) && Run(db, acts).Ok?
    requires Clean(db.journal) && TouchesIn(db, acts) == 0
    ensures Clean(Run(db, acts).value.journal)
    decreases |acts|
  {
    hide Since, Clean, Exec, Touches;
    if acts != [] {
      SinceRun(base, db, [acts[0]]);
      assert Run(db, [acts[0]]) == Exec(db, acts[0]);
      SinceValid(base, db);
      ExecClean(db, acts[0]);
      RunClean(base, Exec(db, acts[0]).value, acts[1..]);
    }
  }

  /** Without touches of an empty 0x03, RevertToSnapshot never panics and restores the journal,
      its dirty list and index included, field by field. */
  lemma RevertRestoresJournal(base: DB, acts: seq<Action>)
    requires base.Valid() && Clean(base.journal)
    requires Above(acts, base.Snapshot().1) && Run(base.Snapshot().0, acts).Ok?
    requires TouchesIn(base.Snapshot().0, acts) == 0
    ensures var r := Run(base.Snapshot().0, acts).value.RevertToSnapshot(base.Snapshot().1);
            r.Ok? && r.value.journal == base.journal && Indistinguishable(r.value.core, base.core)
  {
    hide Since, Clean, Exec, Indistinguishable, Journal.Revert, DB.RevertToSnapshot, TouchesIn;
    var db := Run(base.Snapshot().0, acts).value;
    SinceStart(base);
    RunClean(base, base.Snapshot().0, acts);
    RevertRestores(base, acts);
    RevertClean(db.journal, |base.journal.entries|);
    CleanUnique(base.journal, db.journal.Revert(|base.journal.entries|).value);
  }

  lemma CleanUnique(j: Journal, k: Journal)
    requires Clean(j) && Clean(k) && j.entries == k.entries
    ensures j == k
  {
    TracksCanonical(j);
    TracksCanonical(k);
  }

  // ---------- Revision ids ----------

  ghost predicate IsRevision(db: DB, id: nat) {
    exists i :: 0 <= i < |db.revisions| && db.revisions[i].id == id
  }

  /** A reverted id, and every later one, is invalid; earlier ones stay valid. */
  lemma RevertInvalidates(db: DB, id: nat, k: nat)
    requires db.RevisionsOk() && db.RevertToSnapshot(id).Ok?
    ensures var db' := db.RevertToSnapshot(id).value;
            && (k >= id ==> !IsRevision(db', k) && db'.RevertToSnapshot(k).Panic?)
            && (k < id ==> (IsRevision(db', k) <==> IsRevision(db, k)))
  {
    hide RevertLoop;
    var db' := db.RevertToSnapshot(id).value;
    var idx := Search(db.revisions, id);
    if k >= id {
      assert forall i :: 0 <= i < idx ==> db'.revisions[i] == db.revisions[i];
    } else if IsRevision(db, k) {
      var i :| 0 <= i < |db.revisions| && db.revisions[i].id == k;
      assert i < idx;
      assert db'.revisions[i].id == k;
    }
  }

  /** Some Snapshot of the run returned k. */
  ghost predicate HandedOut(db: DB, acts: seq<Action>, k: nat)
    decreases |acts|
  {
    acts != [] &&
    ((acts[0].TakeSnapshot? && db.Snapshot().1 == k)
     || (Exec(db, acts[0]).Ok? && HandedOut(Exec(db, acts[0]).value, acts[1..], k)))
  }

  lemma ExecIds(db: DB, act: Action, k: nat)
    requires Exec(db, act).Ok?
    ensures Exec(db, act).value.nextRevision >= db.nextRevision + if act.TakeSnapshot? then 1 else 0
    ensures IsRevision(Exec(db, act).value, k) ==> IsRevision(db, k) || (act.TakeSnapshot? && db.Snapshot().1 == k)
  {
    hide Do, RevertLoop;
    var db' := Exec(db, act).value;
    if IsRevision(db', k) {
      var i :| 0 <= i < |db'.revisions| && db'.revisions[i].id == k;
      if i < |db.revisions| {
        assert db.revisions[i] == db'.revisions[i];
      }
    }
  }

  /** Whatever id is valid at the end of a run was valid at its start or was handed out by a
      Snapshot during it, and no Snapshot hands out an id below the counter. */
  lemma {:induction false} IdsNeverReused(db: DB, acts: seq<Action>, k: nat)
    ensures Run(db, acts).Ok? && IsRevision(Run(db, acts).value, k) ==> IsRevision(db, k) || HandedOut(db, acts, k)
    ensures HandedOut(db, acts, k) ==> k >= db.nextRevision
    ensures acts != [] && acts[0].TakeSnapshot? && Exec(db, acts[0]).Ok? ==>
              !HandedOut(Exec(db, acts[0]).value, acts[1..], db.Snapshot().1)
    decreases |acts|
  {
    hide Exec, IsRevision;
    if acts != [] && Exec(db, acts[0]).Ok? {
      ExecIds(db, acts[0], k);
      IdsNeverReused(Exec(db, acts[0]).value, acts[1..], k);
      IdsNeverReused(Exec(db, acts[0]).value, acts[1..], db.Snapshot().1);
    }
  }
}
