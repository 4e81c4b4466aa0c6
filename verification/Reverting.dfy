/** Undoing journal entries restores the state, as far as any reader can tell. */
module Reverting {
  import opened EvmTypes
  import opened StateObjects
  import opened AccessLists
  import opened Journals
  import opened StateDBs

  /** Everything outside the live objects. */
  ghost predicate SameRest(u: Core, t: Core) {
    && u.stores == t.stores && u.refund == t.refund
    && u.txHash == t.txHash && u.blockHash == t.blockHash && u.txIndex == t.txIndex
    && u.logSize == t.logSize && u.logs == t.logs
    && u.preimages == t.preimages && u.access == t.access
  }

  /** Readers see the same account under a, or no account in both. */
  ghost predicate SameAccount(u: Core, t: Core, a: Address) {
    && u.Lookup(a).Some? == t.Lookup(a).Some?
    && (u.Lookup(a).Some? ==> SameObject(u.Lookup(a).value, t.Lookup(a).value, t.stores))
  }

  /** The two states cannot be told apart: existence, balance, nonce, code, storage and
      suicide flag of every account, refund, logs, preimages and access list. */
  ghost predicate Indistinguishable(u: Core, t: Core) {
    SameRest(u, t) && forall a :: SameAccount(u, t, a)
  }

  /** The dirty keys of a live object. */
  function DirtyKeys(c: Core, a: Address): set<StorageKey> {
    if a in c.objects && !c.objects[a].deleted then c.objects[a].dirty.Keys else {}
  }

  /** u is indistinguishable from t and caches at least what t caches. */
  ghost predicate Covers(u: Core, t: Core) {
    && SameRest(u, t)
    && forall a :: CoversAt(u, t, a)
  }

  ghost predicate CoversAt(u: Core, t: Core, a: Address) {
    SameAccount(u, t, a) && DirtyKeys(t, a) <= DirtyKeys(u, a)
  }

  lemma CoversReflexive(c: Core)
    ensures Covers(c, c)
  {
  }

  lemma CoversTransitive(x: Core, y: Core, z: Core)
    requires Covers(x, y) && Covers(y, z)
    ensures Covers(x, z)
  {
    forall a
      ensures CoversAt(x, z, a)
    {
      assert CoversAt(x, y, a) && CoversAt(y, z, a);
      if x.Lookup(a).Some? {
        SameObjectTransitive(x.Lookup(a).value, y.Lookup(a).value, z.Lookup(a).value, z.stores);
      }
    }
  }

  lemma CoversIndistinguishable(u: Core, t: Core)
    requires Covers(u, t)
    ensures Indistinguishable(u, t)
  {
    forall a
      ensures SameAccount(u, t, a)
    {
      assert CoversAt(u, t, a);
    }
  }

  /** Writing equal objects keeps covering. */
  lemma PutCovers(u: Core, t: Core, x: StateObject, y: StateObject)
    requires Covers(u, t)
    requires SameObject(x, y, t.stores) && !x.deleted && !y.deleted && y.dirty.Keys <= x.dirty.Keys
    ensures Covers(u.Put(x), t.Put(y))
  {
    var u', t' := u.Put(x), t.Put(y);
    forall a
      ensures CoversAt(u', t', a)
    {
      assert CoversAt(u, t, a);
      if a != x.address {
        assert u'.Lookup(a) == u.Lookup(a) && t'.Lookup(a) == t.Lookup(a);
      }
    }
  }

  /** Replacing a live object by an indistinguishable one with at least its dirty keys covers. */
  lemma PutSameCovers(c: Core, x: StateObject)
    requires c.Lookup(x.address).Some? && !x.deleted
    requires SameObject(x, c.Lookup(x.address).value, c.stores)
    requires DirtyKeys(c, x.address) <= x.dirty.Keys
    ensures Covers(c.Put(x), c)
  {
    var c' := c.Put(x);
    forall a
      ensures CoversAt(c', c, a)
    {
      if a != x.address {
        assert c'.Lookup(a) == c.Lookup(a);
      }
    }
  }

  lemma PutValid(c: Core, so: StateObject)
    requires c.Valid() && so.Valid(c.stores) && !so.deleted
    ensures c.Put(so).Valid()
  {
    var c' := c.Put(so);
    forall a | a in c'.objects
      ensures c'.ValidAt(a)
    {
      if a != so.address {
        assert c.ValidAt(a);
      }
    }
  }

  lemma FillCovers(c: Core, a: Address)
    requires c.Valid()
    ensures c.Fill(a).Valid() && Covers(c.Fill(a), c)
    ensures c.Fill(a).Lookup(a) == c.Lookup(a)
  {
    if a !in c.objects && a in c.stores.accounts {
      var so := NewObject(a, c.stores.accounts[a]);
      PutValid(c, so);
      PutSameCovers(c, so);
    } else {
      CoversReflexive(c);
    }
  }

  lemma LookupValid(c: Core, a: Address)
    requires c.Valid() && c.Lookup(a).Some?
    ensures c.Lookup(a).value.Valid(c.stores) && c.Lookup(a).value.address == a && !c.Lookup(a).value.deleted
    ensures DirtyKeys(c, a) == c.Lookup(a).value.dirty.Keys
  {
    if a in c.objects {
      assert c.ValidAt(a);
    }
  }

  // ---------- Undoing one entry ----------

  /** The entry can be undone without a panic and into a valid state; a storage change
      is undone on an object that still holds the key in its dirty storage. */
  ghost predicate CanUndo(c: Core, e: Entry) {
    && Undo(c, e).Ok?
    && Undo(c, e).value.Valid()
    && (e.StorageChange? ==> e.key in DirtyKeys(c, e.account))
    && (e.ResetObjectChange? ==> !e.prev.deleted)
  }

  /** Undoing an account entry respects indistinguishability of objects. */
  lemma UndoObjectSame(x: StateObject, y: StateObject, st: Stores, e: Entry)
    requires AccountEntry(e) && SameObject(x, y, st) && y.dirty.Keys <= x.dirty.Keys
    requires x.Valid(st) && y.Valid(st)
    requires e.StorageChange? ==> e.key in y.dirty
    requires UndoObject(y, e).Valid(st)
    ensures SameObject(UndoObject(x, e), UndoObject(y, e), st)
    ensures UndoObject(x, e).Valid(st)
    ensures UndoObject(y, e).dirty.Keys <= UndoObject(x, e).dirty.Keys
  {
    var x', y' := UndoObject(x, e), UndoObject(y, e);
    forall slot
      ensures x'.ValueAt(st, slot) == y'.ValueAt(st, slot)
    {
      assert x.ValueAt(st, slot) == y.ValueAt(st, slot);
    }
  }

  lemma UndoAccountMonotone(u: Core, t: Core, e: Entry)
    requires AccountEntry(e)
    requires u.Valid() && t.Valid() && Covers(u, t) && CanUndo(t, e)
    ensures CanUndo(u, e) && Covers(Undo(u, e).value, Undo(t, e).value)
  {
    hide SameObject, StateObject.ValueAt, StateObject.Valid, Core.Valid, Covers, UndoObject, Core.Put;
    var a := e.account;
    FillCovers(u, a);
    FillCovers(t, a);
    var u1, t1 := u.Fill(a), t.Fill(a);
    FilledCovers(u, t, a);
    CoversLookup(u1, t1, a);
    CoversLookup(u, t, a);
    if t1.Lookup(a).Some? {
      LookupValid(t, a);
      UndoFilled(u1, t1, e);
    }
  }

  lemma CoversLookup(u: Core, t: Core, a: Address)
    requires Covers(u, t)
    ensures CoversAt(u, t, a) && (u.Lookup(a).Some? <==> t.Lookup(a).Some?) && DirtyKeys(t, a) <= DirtyKeys(u, a)
  {
    assert CoversAt(u, t, a);
  }

  /** Undoing the entry on the two objects at its account. */
  lemma UndoFilled(u: Core, t: Core, e: Entry)
    requires AccountEntry(e) && u.Valid() && t.Valid() && Covers(u, t)
    requires u.Lookup(e.account).Some? && t.Lookup(e.account).Some?
    requires t.Put(UndoObject(t.Lookup(e.account).value, e)).Valid()
    requires e.StorageChange? ==> e.key in t.Lookup(e.account).value.dirty
    ensures
      var u', t' := u.Put(UndoObject(u.Lookup(e.account).value, e)), t.Put(UndoObject(t.Lookup(e.account).value, e));
      u'.Valid() && Covers(u', t')
  {
    hide SameObject, StateObject.ValueAt, StateObject.Valid;
    var a := e.account;
    assert CoversAt(u, t, a);
    var x, y := u.Lookup(a).value, t.Lookup(a).value;
    LookupValid(u, a);
    LookupValid(t, a);
    UndoObjectAddress(x, e);
    UndoObjectAddress(y, e);
    assert t.Put(UndoObject(y, e)).ValidAt(a);
    UndoObjectSame(x, y, t.stores, e);
    PutCovers(u, t, UndoObject(x, e), UndoObject(y, e));
    PutValid(u, UndoObject(x, e));
  }

  lemma FilledCovers(u: Core, t: Core, a: Address)
    requires u.Valid() && t.Valid() && Covers(u, t)
    ensures Covers(u.Fill(a), t.Fill(a))
  {
    hide SameObject, StateObject.Valid;
    var u1, t1 := u.Fill(a), t.Fill(a);
    forall b
      ensures CoversAt(u1, t1, b)
    {
      assert CoversAt(u, t, b);
      assert u1.Lookup(b) == u.Lookup(b) && t1.Lookup(b) == t.Lookup(b);
    }
  }

  lemma UndoCreateMonotone(u: Core, t: Core, e: Entry)
    requires e.CreateObjectChange?
    requires u.Valid() && t.Valid() && Covers(u, t)
    ensures CanUndo(u, e) && Covers(Undo(u, e).value, Undo(t, e).value)
  {
    var u', t' := Undo(u, e).value, Undo(t, e).value;
    forall b
      ensures CoversAt(u', t', b)
      ensures b in u'.objects ==> u'.ValidAt(b)
    {
      assert CoversAt(u, t, b);
      assert b in u'.objects ==> u.ValidAt(b);
      if b != e.account {
        assert u'.Lookup(b) == u.Lookup(b) && t'.Lookup(b) == t.Lookup(b);
      }
    }
  }

  /** Changing the rest alike keeps covering. */
  lemma RestCovers(u: Core, t: Core, u': Core, t': Core)
    requires Covers(u, t) && u.Valid()
    requires u'.stores == u.stores && u'.objects == u.objects
    requires t'.stores == t.stores && t'.objects == t.objects
    requires SameRest(u', t') && t'.Valid()
    ensures Covers(u', t') && u'.Valid()
  {
    forall b
      ensures CoversAt(u', t', b)
      ensures b in u'.objects ==> u'.ValidAt(b)
    {
      assert CoversAt(u, t, b);
      assert b in u.objects ==> u.ValidAt(b);
      assert u'.Lookup(b) == u.Lookup(b) && t'.Lookup(b) == t.Lookup(b);
    }
  }

  /** Undoing an entry respects Covers. */
  lemma UndoMonotone(u: Core, t: Core, e: Entry)
    requires u.Valid() && t.Valid() && Covers(u, t) && CanUndo(t, e)
    ensures CanUndo(u, e) && Covers(Undo(u, e).value, Undo(t, e).value)
  {
    if AccountEntry(e) {
      UndoAccountMonotone(u, t, e);
    } else if e.CreateObjectChange? {
      UndoCreateMonotone(u, t, e);
    } else if e.ResetObjectChange? {
      var t' := t.Put(e.prev);
      assert t'.ValidAt(e.prev.address);
      PutCovers(u, t, e.prev, e.prev);
      PutValid(u, e.prev);
    } else {
      RestCovers(u, t, Undo(u, e).value, Undo(t, e).value);
    }
  }

  // ---------- Undoing many entries ----------

  /** Undo entries from the last to the first, as the revert loop does. */
  function UndoAll(c: Core, es: seq<Entry>): Outcome<Core>
    decreases |es|
  {
    if es == [] then Ok(c)
    else
      var r := Undo(c, es[|es| - 1]);
      if r.Panic? then Panic else UndoAll(r.value, es[..|es| - 1])
  }

  /** Undoing es from c leads, safely at every step, to a state that covers t. */
  ghost predicate Undoes(c: Core, es: seq<Entry>, t: Core)
    decreases |es|
  {
    && c.Valid()
    && if es == [] then Covers(c, t)
       else CanUndo(c, es[|es| - 1]) && Undoes(Undo(c, es[|es| - 1]).value, es[..|es| - 1], t)
  }

  lemma {:induction false} UndoesMonotone(u: Core, c: Core, es: seq<Entry>, t: Core)
    requires u.Valid() && Covers(u, c) && Undoes(c, es, t)
    ensures Undoes(u, es, t)
    decreases |es|
  {
    if es == [] {
      CoversTransitive(u, c, t);
    } else {
      var e := es[|es| - 1];
      UndoMonotone(u, c, e);
      UndoesMonotone(Undo(u, e).value, Undo(c, e).value, es[..|es| - 1], t);
    }
  }

  /** Undoing composes. */
  lemma {:induction false} UndoesCompose(c2: Core, fs: seq<Entry>, c1: Core, es: seq<Entry>, c0: Core)
    requires Undoes(c2, fs, c1) && Undoes(c1, es, c0)
    ensures Undoes(c2, es + fs, c0)
    decreases |fs|
  {
    if fs == [] {
      assert es + fs == es;
      UndoesMonotone(c2, c1, es, c0);
    } else {
      var n := |fs| - 1;
      assert (es + fs)[..|es + fs| - 1] == es + fs[..n];
      UndoesCompose(Undo(c2, fs[n]).value, fs[..n], c1, es, c0);
    }
  }

  /** Undoing the last entries of a run leaves the earlier ones undoable. */
  lemma {:induction false} UndoesSplit(c: Core, es: seq<Entry>, fs: seq<Entry>, t: Core)
    requires Undoes(c, es + fs, t)
    ensures UndoAll(c, fs).Ok? && Undoes(UndoAll(c, fs).value, es, t)
    decreases |fs|
  {
    if fs == [] {
      assert es + fs == es;
    } else {
      var n := |fs| - 1;
      assert (es + fs)[..|es + fs| - 1] == es + fs[..n];
      UndoesSplit(Undo(c, fs[n]).value, es, fs[..n], t);
    }
  }

  // ---------- Every operation is undone by its entries ----------

  lemma NothingToUndo(c: Core, t: Core)
    requires c.Valid() && Covers(c, t)
    ensures Undoes(c, [], t)
  {
  }

  lemma OneToUndo(c: Core, e: Entry, t: Core)
    requires c.Valid() && CanUndo(c, e) && Covers(Undo(c, e).value, t)
    ensures Undoes(c, [e], t)
  {
    NothingToUndo(Undo(c, e).value, t);
    assert [e][..0] == [];
  }

  /** An entry that restores the rest of the state exactly. */
  lemma ExactUndo(c: Core, e: Entry, t: Core)
    requires c.Valid() && t.Valid() && Undo(c, e) == Ok(t)
    requires !e.StorageChange? && !e.ResetObjectChange?
    ensures Undoes(c, [e], t)
  {
    CoversReflexive(t);
    OneToUndo(c, e, t);
  }

  lemma UndoObjectAddress(so: StateObject, e: Entry)
    requires AccountEntry(e)
    ensures UndoObject(so, e).address == so.address && UndoObject(so, e).deleted == so.deleted
  {
  }

  /** A write to a live object whose entry brings back an indistinguishable object. */
  lemma ObjectStep(c: Core, so: StateObject, so': StateObject, e: Entry)
    requires c.Valid() && c.Lookup(so.address) == Some(so)
    requires so'.address == so.address && so'.Valid(c.stores) && !so'.deleted
    requires AccountEntry(e) && e.account == so.address
    requires e.StorageChange? ==> e.key in so'.dirty
    requires UndoObject(so', e).Valid(c.stores)
    requires SameObject(UndoObject(so', e), so, c.stores)
    requires so.dirty.Keys <= UndoObject(so', e).dirty.Keys
    ensures c.Put(so').Valid() && Undoes(c.Put(so'), [e], c)
  {
    hide Undoes, Covers, SameObject, StateObject.Valid, UndoObject;
    var c' := c.Put(so');
    var back := UndoObject(so', e);
    UndoObjectAddress(so', e);
    PutValid(c, so');
    PutValid(c, back);
    LookupValid(c, so.address);
    PutSameCovers(c, back);
    assert Undo(c', e) == Ok(c'.Put(back));
    assert c'.Put(back).objects == c.Put(back).objects;
    OneToUndo(c', e, c);
  }

  /** Undoing the creation of an account that did not exist. */
  lemma CreateFreshStep(c: Core, a: Address, x: StateObject)
    requires c.Valid() && x.address == a && x.Valid(c.stores) && !x.deleted
    requires c.Lookup(a).None?
    ensures c.Put(x).Valid() && Undoes(c.Put(x), [CreateObjectChange(a)], c)
  {
    hide Undoes, StateObject.Valid;
    PutValid(c, x);
    var c' := c.Put(x);
    var e := CreateObjectChange(a);
    var u := Undo(c', e).value;
    assert u.objects == c.objects - {a};
    forall b | b in u.objects
      ensures u.ValidAt(b)
    {
      assert c.ValidAt(b);
    }
    forall b
      ensures CoversAt(u, c, b)
    {
      if b == a {
        assert a in c.objects ==> c.ValidAt(a);
        assert u.Lookup(a).None?;
      } else {
        assert u.Lookup(b) == c.Lookup(b);
      }
    }
    OneToUndo(c', e, c);
  }

  /** Undoing the replacement of an account that did exist. */
  lemma CreateResetStep(c: Core, a: Address, x: StateObject)
    requires c.Valid() && x.address == a && x.Valid(c.stores) && !x.deleted
    requires a in c.objects && c.Lookup(a).Some?
    ensures c.Put(x).Valid() && Undoes(c.Put(x), [ResetObjectChange(c.objects[a])], c)
  {
    hide Undoes, Covers;
    var e := ResetObjectChange(c.objects[a]);
    var c' := c.Put(x);
    PutValid(c, x);
    LookupValid(c, a);
    assert c'.Put(e.prev).objects == c.objects;
    assert Undo(c', e) == Ok(c);
    CoversReflexive(c);
    OneToUndo(c', e, c);
  }

  /** createObject, with any blank or funded new object in place. */
  lemma CreateStep(c: Core, a: Address, x: StateObject)
    requires c.Valid() && x.address == a && x.Valid(c.stores) && !x.deleted
    ensures c.Fill(a).Put(x).Valid()
    ensures Undoes(c.Fill(a).Put(x), CreateObject(c, a).entries, c)
  {
    if c.Lookup(a).None? {
      CreateFreshStep(c, a, x);
    } else {
      var c1 := c.Fill(a);
      FillCovers(c, a);
      CreateResetStep(c1, a, x);
      NothingToUndo(c1, c);
      UndoesCompose(c1.Put(x), CreateObject(c, a).entries, c1, [], c);
    }
  }

  lemma GetOrNewStep(c: Core, a: Address)
    requires c.Valid()
    ensures Undoes(GetOrNew(c, a).core, GetOrNew(c, a).entries, c)
  {
    if c.Lookup(a).Some? {
      FillCovers(c, a);
      NothingToUndo(c.Fill(a), c);
    } else {
      CreateStep(c, a, BlankObject(a));
    }
  }

  /** The body of each setter. */
  lemma WriteStep(c: Core, so: StateObject, op: Op)
    requires c.Valid() && Setter(op) && c.Lookup(so.address) == Some(so) && so.Valid(c.stores)
    requires Write(c, so, op).Ok?
    ensures Undoes(Write(c, so, op).value.core, Write(c, so, op).value.entries, c)
  {
    hide Undoes, WriteNonce, WriteState, WriteCode, StateObject.Valid, Core.Valid;
    LookupValid(c, so.address);
    match op
    case SetState(_, slot, value) =>
      StateStep(c, so, slot, value);
    case SetNonce(_, nonce) =>
      NonceStep(c, so, nonce);
    case SetCode(_, code) =>
      CodeStep(c, so, code);
    case SetBalance(_, amount) =>
      BalanceStep(c, so, amount);
    case AddBalance(_, amount) =>
      if amount != 0 {
        BalanceStep(c, so, so.account.balance + amount);
      } else {
        UnchangedStep(c, so.address);
      }
    case SubBalance(_, amount) =>
      if amount != 0 {
        BalanceStep(c, so, so.account.balance - amount);
      } else {
        UnchangedStep(c, so.address);
      }
  }

  lemma UnchangedStep(c: Core, a: Address)
    requires c.Valid()
    ensures Undoes(c, [], c) && Undoes(c, [TouchChange(a)], c)
  {
    CoversReflexive(c);
    NothingToUndo(c, c);
    ExactUndo(c, TouchChange(a), c);
  }

  lemma NonceStep(c: Core, so: StateObject, nonce: nat)
    requires c.Valid() && c.Lookup(so.address) == Some(so) && so.Valid(c.stores) && !so.deleted
    ensures Undoes(WriteNonce(c, so, nonce).core, WriteNonce(c, so, nonce).entries, c)
  {
    ObjectStep(c, so, so.(account := so.account.(sequence := nonce)), NonceChange(so.address, so.account.sequence));
  }

  lemma BalanceStep(c: Core, so: StateObject, amount: int)
    requires c.Valid() && c.Lookup(so.address) == Some(so) && so.Valid(c.stores) && !so.deleted && amount >= 0
    ensures Undoes(WriteBalance(c, so, amount).value.core, WriteBalance(c, so, amount).value.entries, c)
  {
    ObjectStep(c, so, so.(account := so.account.(balance := amount)), BalanceChange(so.address, so.account.balance));
  }

  lemma CodeStep(c: Core, so: StateObject, code: Bytes)
    requires c.Valid() && c.Lookup(so.address) == Some(so) && so.Valid(c.stores) && !so.deleted
    ensures Undoes(WriteCode(c, so, code).core, WriteCode(c, so, code).entries, c)
  {
    var so' := so.(code := Some(code), account := so.account.(codeHash := CodeHash(code)), dirtyCode := true);
    var e := CodeChange(so.address, so.LoadCode(c.stores), so.account.codeHash);
    assert UndoObject(so', e) == so.(code := e.prevCode, dirtyCode := true);
    ObjectStep(c, so, so', e);
  }

  /** Replacing a live object by one that only differs in cached origins. */
  lemma OriginStep(c: Core, so: StateObject, origin: map<StorageKey, Word>)
    requires c.Valid() && c.Lookup(so.address) == Some(so)
    requires so.(origin := origin).Valid(c.stores)
    ensures Undoes(c.Put(so.(origin := origin)), [], c)
  {
    hide Undoes;
    var x := so.(origin := origin);
    LookupValid(c, so.address);
    PutValid(c, x);
    PutSameCovers(c, x);
    NothingToUndo(c.Put(x), c);
  }

  lemma StateStep(c: Core, so: StateObject, slot: Word, value: Word)
    requires c.Valid() && c.Lookup(so.address) == Some(so) && so.Valid(c.stores) && !so.deleted
    ensures Undoes(WriteState(c, so, slot, value).core, WriteState(c, so, slot, value).entries, c)
  {
    hide Undoes, Covers, Core.Valid;
    var (so1, prev) := so.GetState(c.stores, slot);
    if prev == value {
      OriginStep(c, so, so1.origin);
    } else {
      var so' := so1.WriteDirty(so.Key(slot), value);
      var e := StorageChange(so.address, so.Key(slot), prev);
      StorageUndone(c.stores, so, slot, value);
      ObjectStep(c, so, so', e);
    }
  }

  lemma StorageUndone(st: Stores, so: StateObject, slot: Word, value: Word)
    requires so.Valid(st)
    ensures var so' := so.GetState(st, slot).0.WriteDirty(so.Key(slot), value);
            var back := so'.WriteDirty(so.Key(slot), so.ValueAt(st, slot));
            so'.Valid(st) && back.Valid(st) && SameObject(back, so, st)
  {
  }

  lemma SetterStep(c: Core, op: Op)
    requires c.Valid() && Setter(op) && OnObject(c, op.a, op).Ok?
    ensures Undoes(OnObject(c, op.a, op).value.core, OnObject(c, op.a, op).value.entries, c)
  {
    hide Undoes;
    var s := GetOrNew(c, op.a);
    GetOrNewStep(c, op.a);
    LookupValid(s.core, op.a);
    var so := s.core.Lookup(op.a).value;
    WriteStep(s.core, so, op);
    var r := Write(s.core, so, op).value;
    UndoesCompose(r.core, r.entries, s.core, s.entries, c);
  }

  lemma CreateAccountStep(c: Core, a: Address)
    requires c.Valid()
    ensures Do(c, CreateAccount(a)).Ok?
    ensures Undoes(Do(c, CreateAccount(a)).value.core, Do(c, CreateAccount(a)).value.entries, c)
  {
    hide Undoes, Core.Valid;
    var r := Do(c, CreateAccount(a)).value;
    if c.Lookup(a).None? {
      CreateStep(c, a, BlankObject(a));
    } else {
      var x := NewObject(a, Account(c.Lookup(a).value.account.balance, 0, EMPTY_CODE_HASH));
      CreateStep(c, a, x);
      assert r.core.objects == c.Fill(a).Put(x).objects;
    }
  }

  lemma MarkSuicidedStep(c: Core, so: StateObject)
    requires c.Valid() && c.Lookup(so.address) == Some(so)
    ensures var marked := so.(suicided := true);
            && c.Put(marked).Valid() && marked.Valid(c.stores) && !marked.deleted
            && Undoes(c.Put(marked), [SuicideChange(so.address, so.suicided, so.account.balance)], c)
  {
    hide Undoes, Covers, Core.Valid;
    LookupValid(c, so.address);
    ObjectStep(c, so, so.(suicided := true), SuicideChange(so.address, so.suicided, so.account.balance));
  }

  lemma SuicideStep(c: Core, a: Address)
    requires c.Valid()
    ensures Do(c, Suicide(a)).Ok?
    ensures Undoes(Do(c, Suicide(a)).value.core, Do(c, Suicide(a)).value.entries, c)
  {
    hide Undoes, Covers, Core.Valid, StateObject.Valid;
    var c1 := c.Fill(a);
    var r := Do(c, Suicide(a)).value;
    FillCovers(c, a);
    NothingToUndo(c1, c);
    if c1.Lookup(a).Some? {
      LookupValid(c1, a);
      var so := c1.Lookup(a).value;
      var marked := so.(suicided := true);
      var e1, e2 := SuicideChange(a, so.suicided, so.account.balance), BalanceChange(a, so.account.balance);
      MarkSuicidedStep(c1, so);
      var c2 := c1.Put(marked);
      BalanceStep(c2, marked, 0);
      assert r.core.objects == WriteBalance(c2, marked, 0).value.core.objects;
      UndoesCompose(r.core, [e2], c2, [e1], c1);
      UndoesCompose(r.core, [e1] + [e2], c1, [], c);
      assert [] + ([e1] + [e2]) == [e1, e2];
    }
  }

  lemma ReadStep(c: Core, op: Op)
    requires c.Valid() && (op.ReadAccount? || op.ReadState? || op.ReadCommittedState?)
    ensures Do(c, op).Ok?
    ensures Undoes(Do(c, op).value.core, Do(c, op).value.entries, c)
  {
    hide Undoes, Covers, Core.Valid, StateObject.Valid;
    var c1 := c.Fill(op.a);
    FillCovers(c, op.a);
    NothingToUndo(c1, c);
    if !op.ReadAccount? && c1.Lookup(op.a).Some? {
      LookupValid(c1, op.a);
      var so := c1.Lookup(op.a).value;
      var origin := if op.ReadState? then so.GetState(c.stores, op.slot).0.origin
                    else so.GetCommittedState(c.stores, op.slot).0.origin;
      OriginStep(c1, so, origin);
      UndoesCompose(c1.Put(so.(origin := origin)), [], c1, [], c);
    }
  }

  lemma RestValid(c: Core, c': Core)
    requires c.Valid() && c'.stores == c.stores && c'.objects == c.objects && c'.access.Valid()
    requires c'.refund < U64 && c'.logSize < U64
    ensures c'.Valid()
  {
    forall a | a in c'.objects
      ensures c'.ValidAt(a)
    {
      assert c.ValidAt(a);
    }
  }

  lemma AccessAddressStep(c: Core, a: Address)
    requires c.Valid() && a !in c.access.addresses
    ensures var c' := c.(access := c.access.AddAddress(a).0);
            c'.Valid() && Undoes(c', [AccessListAddAccountChange(a)], c)
  {
    hide Undoes, AccessList.Valid, AccessList.SlotsOf;
    var c' := c.(access := c.access.AddAddress(a).0);
    AddAddressInverse(c.access, a);
    RestValid(c, c');
    ExactUndo(c', AccessListAddAccountChange(a), c);
  }

  lemma AccessSlotStep(c: Core, a: Address, slot: Word)
    requires c.Valid() && c.access.AddSlot(a, slot).2
    ensures var c' := c.(access := c.access.AddSlot(a, slot).0);
            Undoes(c', [AccessListAddSlotChange(a, slot)], c.(access := c.access.AddAddress(a).0))
  {
    hide Undoes, AccessList.Valid, AccessList.SlotsOf, AccessList.AddSlot;
    var c' := c.(access := c.access.AddSlot(a, slot).0);
    var mid := c.(access := c.access.AddAddress(a).0);
    AddAddressInverse(c.access, a);
    RestValid(c, mid);
    AddSlotMeaning(c.access, a, slot);
    RestValid(c, c');
    AddSlotInverse(c.access, a, slot);
    ExactUndo(c', AccessListAddSlotChange(a, slot), mid);
  }

  lemma AccessStep(c: Core, op: Op)
    requires c.Valid() && (op.AddAddressToAccessList? || op.AddSlotToAccessList?)
    ensures Do(c, op).Ok?
    ensures Undoes(Do(c, op).value.core, Do(c, op).value.entries, c)
  {
    hide Undoes, Covers, CanUndo, AccessList.Valid, AccessList.SlotsOf;
    var r := Do(c, op).value;
    var a := op.a;
    UnchangedStep(c, a);
    if a !in c.access.addresses {
      AccessAddressStep(c, a);
    }
    if op.AddSlotToAccessList? && c.access.AddSlot(a, op.slot).2 {
      AccessSlotStep(c, a, op.slot);
      var mid := c.(access := c.access.AddAddress(a).0);
      if a !in c.access.addresses {
        UndoesCompose(r.core, [AccessListAddSlotChange(a, op.slot)], mid, [AccessListAddAccountChange(a)], c);
      } else {
        assert r.entries == [AccessListAddSlotChange(a, op.slot)];
      }
    } else if a in c.access.addresses {
      assert r.core == c && r.entries == [];
    }
  }

  lemma CounterStep(c: Core, op: Op)
    requires c.Valid() && (op.AddLog? || op.AddPreimage? || op.AddRefund? || op.SubRefund?)
    requires Do(c, op).Ok?
    ensures Undoes(Do(c, op).value.core, Do(c, op).value.entries, c)
  {
    hide Undoes, Covers, CanUndo, AccessList.Valid;
    var r := Do(c, op).value;
    UnchangedStep(c, 0);
    if r.entries != [] {
      RestValid(c, r.core);
      assert op.AddLog? ==> r.core.logs[..|c.logs|] == c.logs;
      assert op.AddPreimage? ==> r.core.preimages - {op.hash} == c.preimages;
      assert Undo(r.core, r.entries[0]) == Ok(c);
      ExactUndo(r.core, r.entries[0], c);
      assert r.entries == [r.entries[0]];
    }
  }

  /** Every operation is undone by the entries it journals, up to indistinguishability. */
  lemma DoUndone(c: Core, op: Op)
    requires c.Valid() && Do(c, op).Ok?
    ensures Undoes(Do(c, op).value.core, Do(c, op).value.entries, c)
  {
    hide Undoes;
    match op
    case CreateAccount(a) => CreateAccountStep(c, a);
    case Suicide(a) => SuicideStep(c, a);
    case AddAddressToAccessList(_) => AccessStep(c, op);
    case AddSlotToAccessList(_, _) => AccessStep(c, op);
    case ReadAccount(_) => ReadStep(c, op);
    case ReadState(_, _) => ReadStep(c, op);
    case ReadCommittedState(_, _) => ReadStep(c, op);
    case AddLog(_) => CounterStep(c, op);
    case AddPreimage(_, _) => CounterStep(c, op);
    case AddRefund(_) => CounterStep(c, op);
    case SubRefund(_) => CounterStep(c, op);
    case _ => SetterStep(c, op);
  }
}
