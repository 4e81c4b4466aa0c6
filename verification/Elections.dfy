/** Electing and retiring validators one after the other: what each step and each sequence of
    steps does to records, queue, last powers and updates. */
module Elections {
  import opened EvmTypes
  import opened Coins
  import opened Sums
  import opened StakingStore
  import opened StakingInvariants
  import opened ValidatorSet

  function Members(s: seq<Address>): (r: set<Address>)
    ensures forall a :: a in r <==> a in s
  {
    set a | a in s
  }

  // ---------- The consensus engine's view ----------

  /** The validator set of the consensus engine after a list of updates. */
  function Applied(base: map<Address, int>, updates: seq<Update>): map<Address, int>
    decreases |updates|
  {
    if updates == [] then base
    else
      var m := Applied(base, updates[..|updates| - 1]);
      var u := updates[|updates| - 1];
      if u.power == 0 then m - {u.operator} else m[u.operator := u.power]
  }

  lemma AppliedAppend(base: map<Address, int>, updates: seq<Update>, u: Update)
    ensures Applied(base, updates + [u]) ==
            if u.power == 0 then Applied(base, updates) - {u.operator} else Applied(base, updates)[u.operator := u.power]
  {
    assert (updates + [u])[..|updates + [u]| - 1] == updates;
  }

  /** The update changes something: it removes a member, or gives a new or different power. */
  ghost predicate Changes(base: map<Address, int>, u: Update) {
    if u.power == 0 then u.operator in base else u.operator !in base || base[u.operator] != u.power
  }

  /** One update per operator, each of which changes something. */
  ghost predicate ExactDiff(base: map<Address, int>, updates: seq<Update>) {
    && (forall i, j :: 0 <= i < j < |updates| ==> updates[i].operator != updates[j].operator)
    && forall i :: 0 <= i < |updates| ==> Changes(base, updates[i])
  }

  ghost predicate Untouched(updates: seq<Update>, a: Address) {
    forall i :: 0 <= i < |updates| ==> updates[i].operator != a
  }

  // ---------- Status transitions ----------

  /** Bonding takes a validator out of the unbonding queue and leaves its index key. */
  lemma BondStep(st: Store, ctx: Context, v: Validator)
    requires ctx.Valid() && RecordsOk(st) && IndexOk(st, ctx) && QueueOk(st)
    requires v.operator in st.validators && st.validators[v.operator] == v && v.status != Bonded && !v.jailed
    ensures
      var r := BondValidator(st, ctx, v);
      && r == st.(validators := st.validators[v.operator := v.(status := Bonded)], queue := r.queue)
      && QueueOk(r)
  {
    hide Power;
    var r := BondValidator(st, ctx, v);
    IndexSame(st, ctx, v);
    DequeueStep(st, r, v);
  }

  lemma IndexSame(st: Store, ctx: Context, v: Validator)
    requires ctx.Valid() && RecordsOk(st) && IndexOk(st, ctx)
    requires v.operator in st.validators && st.validators[v.operator] == v
    ensures (if v.jailed then st.powerIndex - {KeyOf(ctx, v)} else st.powerIndex - {KeyOf(ctx, v)} + {KeyOf(ctx, v)})
         == st.powerIndex
  {
    var k := KeyOf(ctx, v);
    assert k in st.powerIndex <==> Indexes(st, ctx, k);
  }

  lemma DequeueStep(st: Store, r: Store, v: Validator)
    requires RecordsOk(st) && QueueOk(st) && v.operator in st.validators && st.validators[v.operator] == v
    requires v.status != Bonded
    requires r.validators == st.validators[v.operator := v.(status := Bonded)]
    requires r.queue == Dequeue(st.queue, v.unbondingTime, v.operator)
    ensures QueueOk(r)
  {
    forall t, a | t in r.queue && a in r.queue[t]
      ensures Queued(r, t, a)
    {
      assert Queued(st, t, a);
    }
  }

  /** Unbonding puts a bonded validator into the queue at its completion time. */
  lemma UnbondStep(st: Store, ctx: Context, v: Validator)
    requires ctx.Valid() && RecordsOk(st) && IndexOk(st, ctx) && QueueOk(st)
    requires v.operator in st.validators && st.validators[v.operator] == v && v.status == Bonded
    ensures
      var r := BeginUnbonding(st, ctx, v);
      && r == st.(validators := st.validators[v.operator := v.(status := Unbonding, unbondingTime := ctx.maturity)],
                  queue := r.queue)
      && QueueOk(r)
  {
    hide Power;
    var r := BeginUnbonding(st, ctx, v);
    IndexSame(st, ctx, v);
    EnqueueStep(st, r, v, ctx.maturity);
  }

  lemma EnqueueStep(st: Store, r: Store, v: Validator, t: Time)
    requires RecordsOk(st) && QueueOk(st) && v.operator in st.validators && st.validators[v.operator] == v
    requires v.status == Bonded
    requires r.validators == st.validators[v.operator := v.(status := Unbonding, unbondingTime := t)]
    requires r.queue == Enqueue(st.queue, t, v.operator)
    ensures QueueOk(r)
  {
    if t in st.queue {
      assert v.operator in st.queue[t] ==> Queued(st, t, v.operator);
    }
    forall s, a | s in r.queue && a in r.queue[s]
      ensures Queued(r, s, a)
    {
      assert a != v.operator ==> Queued(st, s, a);
      assert a == v.operator && s in st.queue && a in st.queue[s] ==> Queued(st, s, a);
    }
  }

  /** Index keys do not depend on status or time. */
  lemma IndexKept(st: Store, r: Store, ctx: Context, v: Validator)
    requires ctx.Valid() && RecordsOk(st) && IndexOk(st, ctx) && v.operator in st.validators
    requires r.validators == st.validators[v.operator := v] && r.powerIndex == st.powerIndex
    requires v.jailed == st.validators[v.operator].jailed && v.shares == st.validators[v.operator].shares
    requires v.minSelfDelegation == st.validators[v.operator].minSelfDelegation
    ensures RecordsOk(r) && IndexOk(r, ctx)
  {
    hide Power;
    forall k
      ensures k in r.powerIndex <==> Indexes(r, ctx, k)
    {
      assert k in st.powerIndex <==> Indexes(st, ctx, k);
    }
  }

  // ---------- Steps of the loops ----------

  ghost predicate BondedOk(st: Store) {
    forall a :: a in st.lastPowers <==> a in st.validators && st.validators[a].status == Bonded
  }

  /** What holds between steps: the store is sound, and the updates so far lead from the base
      to its last powers. */
  ghost predicate Tracks(e: Election, ctx: Context, base: map<Address, int>)
    requires ctx.Valid()
  {
    && RecordsOk(e.store) && IndexOk(e.store, ctx) && QueueOk(e.store) && BondedOk(e.store)
    && Applied(base, e.updates) == e.store.lastPowers && ExactDiff(base, e.updates)
  }

  /** One validator's record and last power change. */
  ghost predicate Moves(st: Store, r: Store, v: Validator, powers: map<Address, int>) {
    && r == st.(validators := st.validators[v.operator := v], queue := r.queue, lastPowers := powers)
  }

  lemma ElectStore(e: Election, ctx: Context, v: Validator)
    requires ctx.Valid() && RecordsOk(e.store) && IndexOk(e.store, ctx) && QueueOk(e.store) && BondedOk(e.store)
    requires v.operator in e.store.validators && e.store.validators[v.operator] == v && !v.jailed
    requires v.operator in e.store.lastPowers && v.operator in e.last ==> e.last[v.operator] == e.store.lastPowers[v.operator]
    requires v.operator in e.last ==> v.operator in e.store.lastPowers
    ensures
      var r := Elect(e, ctx, v);
      && RecordsOk(r.store) && IndexOk(r.store, ctx) && QueueOk(r.store) && BondedOk(r.store)
      && Moves(e.store, r.store, v.(status := Bonded), e.store.lastPowers[v.operator := Power(ctx, v.shares)])
  {
    hide RecordsOk, IndexOk, QueueOk, Power, BondValidator;
    var r := Elect(e, ctx, v);
    if v.status != Bonded {
      BondStep(e.store, ctx, v);
      IndexKept(e.store, BondValidator(e.store, ctx, v), ctx, v.(status := Bonded));
      PowerFrame(BondValidator(e.store, ctx, v), r.store, ctx);
    } else {
      PowerFrame(e.store, r.store, ctx);
    }
    assert e.store.validators[v.operator := v] == e.store.validators;
    assert v.operator in e.last && e.last[v.operator] == Power(ctx, v.shares) ==>
      e.store.lastPowers[v.operator := Power(ctx, v.shares)] == e.store.lastPowers;
  }

  lemma PowerFrame(st: Store, r: Store, ctx: Context)
    requires ctx.Valid() && RecordsOk(st) && IndexOk(st, ctx) && QueueOk(st)
    requires r == st.(lastPowers := r.lastPowers)
    ensures RecordsOk(r) && IndexOk(r, ctx) && QueueOk(r)
  {
    hide Power;
    forall k
      ensures k in r.powerIndex <==> Indexes(r, ctx, k)
    {
      assert k in st.powerIndex <==> Indexes(st, ctx, k);
    }
    forall t, a | t in r.queue && a in r.queue[t]
      ensures Queued(r, t, a)
    {
      assert Queued(st, t, a);
    }
  }

  lemma RetireStore(e: Election, ctx: Context, v: Validator)
    requires ctx.Valid() && RecordsOk(e.store) && IndexOk(e.store, ctx) && QueueOk(e.store) && BondedOk(e.store)
    requires v.operator in e.store.validators && e.store.validators[v.operator] == v && v.status == Bonded
    ensures
      var r := Retire(e, ctx, v);
      && RecordsOk(r.store) && IndexOk(r.store, ctx) && QueueOk(r.store) && BondedOk(r.store)
      && Moves(e.store, r.store, v.(status := Unbonding, unbondingTime := ctx.maturity), e.store.lastPowers - {v.operator})
  {
    hide RecordsOk, IndexOk, QueueOk, Power, BeginUnbonding;
    var r := Retire(e, ctx, v);
    UnbondStep(e.store, ctx, v);
    var s := BeginUnbonding(e.store, ctx, v);
    IndexKept(e.store, s, ctx, v.(status := Unbonding, unbondingTime := ctx.maturity));
    PowerFrame(s, r.store, ctx);
  }

  // ---------- Updates follow the steps ----------

  lemma {:induction false} AppliedUntouched(base: map<Address, int>, updates: seq<Update>, a: Address)
    requires Untouched(updates, a)
    ensures a in Applied(base, updates) <==> a in base
    ensures a in base ==> Applied(base, updates)[a] == base[a]
    decreases |updates|
  {
    if updates != [] {
      AppliedUntouched(base, updates[..|updates| - 1], a);
    }
  }

  ghost predicate SameAt(m: map<Address, int>, n: map<Address, int>, a: Address) {
    (a in m <==> a in n) && (a in m ==> m[a] == n[a])
  }

  lemma DiffAppend(base: map<Address, int>, updates: seq<Update>, u: Update)
    requires ExactDiff(base, updates) && Untouched(updates, u.operator) && Changes(base, u)
    ensures ExactDiff(base, updates + [u])
    ensures forall a :: a != u.operator && Untouched(updates, a) ==> Untouched(updates + [u], a)
  {
  }

  ghost predicate Electable(st: Store, ctx: Context, a: Address)
    requires ctx.Valid()
  {
    a in st.validators && !st.validators[a].jailed && Power(ctx, st.validators[a].shares) > 0
  }

  lemma ElectTracks(e: Election, ctx: Context, v: Validator, base: map<Address, int>)
    requires ctx.Valid() && Tracks(e, ctx, base) && Electable(e.store, ctx, v.operator)
    requires e.store.validators[v.operator] == v && Untouched(e.updates, v.operator) && SameAt(e.last, base, v.operator)
    ensures
      var r := Elect(e, ctx, v);
      && Tracks(r, ctx, base)
      && Moves(e.store, r.store, v.(status := Bonded), e.store.lastPowers[v.operator := Power(ctx, v.shares)])
      && (forall a :: a != v.operator && Untouched(e.updates, a) ==> Untouched(r.updates, a))
  {
    hide RecordsOk, IndexOk, QueueOk, Power, BondValidator, BondedOk, ExactDiff, Applied, Untouched, Moves;
    var power := Power(ctx, v.shares);
    AppliedUntouched(base, e.updates, v.operator);
    ElectStore(e, ctx, v);
    var u := Update(v.operator, power);
    var r := Elect(e, ctx, v);
    MovesPowers(e.store, r.store, v.(status := Bonded), e.store.lastPowers[v.operator := power]);
    if v.operator !in e.last || e.last[v.operator] != power {
      AppliedAppend(base, e.updates, u);
      DiffAppend(base, e.updates, u);
    } else {
      assert e.store.lastPowers[v.operator := power] == e.store.lastPowers;
    }
  }

  lemma MovesPowers(st: Store, r: Store, v: Validator, powers: map<Address, int>)
    requires Moves(st, r, v, powers)
    ensures r.lastPowers == powers && r.validators == st.validators[v.operator := v]
  {
  }

  lemma RetireTracks(e: Election, ctx: Context, v: Validator, base: map<Address, int>)
    requires ctx.Valid() && Tracks(e, ctx, base) && v.operator in e.store.validators
    requires e.store.validators[v.operator] == v && v.status == Bonded && Untouched(e.updates, v.operator)
    ensures
      var r := Retire(e, ctx, v);
      && Tracks(r, ctx, base)
      && Moves(e.store, r.store, v.(status := Unbonding, unbondingTime := ctx.maturity), e.store.lastPowers - {v.operator})
      && (forall a :: a != v.operator && Untouched(e.updates, a) ==> Untouched(r.updates, a))
      && v.operator in base
  {
    hide RecordsOk, IndexOk, QueueOk, Power, BeginUnbonding, ExactDiff, Applied, Untouched, Moves;
    AppliedUntouched(base, e.updates, v.operator);
    RetireStore(e, ctx, v);
    var r := Retire(e, ctx, v);
    MovesPowers(e.store, r.store, v.(status := Unbonding, unbondingTime := ctx.maturity), e.store.lastPowers - {v.operator});
    AppliedAppend(base, e.updates, Update(v.operator, 0));
    DiffAppend(base, e.updates, Update(v.operator, 0));
  }

  // ---------- Sequences of steps ----------

  function ElectAll(e: Election, ctx: Context, el: seq<Address>): Election
    requires ctx.Valid()
    decreases |el|
  {
    if el == [] || el[0] !in e.store.validators then e
    else ElectAll(Elect(e, ctx, e.store.validators[el[0]]), ctx, el[1..])
  }

  function RetireAll(e: Election, ctx: Context, out: seq<Address>): Election
    requires ctx.Valid()
    decreases |out|
  {
    if out == [] || out[0] !in e.store.validators then e
    else RetireAll(Retire(e, ctx, e.store.validators[out[0]]), ctx, out[1..])
  }

  /** The validators of el become bonded with their current power; nothing else changes. */
  ghost predicate Bonds(st: Store, r: Store, ctx: Context, el: seq<Address>)
    requires ctx.Valid()
  {
    && r == st.(validators := r.validators, queue := r.queue, lastPowers := r.lastPowers)
    && r.validators.Keys == st.validators.Keys
    && (forall a :: a in st.validators ==>
          r.validators[a] == if a in el then st.validators[a].(status := Bonded) else st.validators[a])
    && (forall a :: a in r.lastPowers <==> a in st.lastPowers || (a in el && a in st.validators))
    && (forall a :: a in r.lastPowers ==>
          r.lastPowers[a] == if a in el && a in st.validators then Power(ctx, st.validators[a].shares) else st.lastPowers[a])
  }

  ghost function PowersOf(st: Store, ctx: Context, el: seq<Address>): map<Address, int>
    requires ctx.Valid()
  {
    map a | a in el && a in st.validators :: Power(ctx, st.validators[a].shares)
  }

  ghost predicate CanElect(e: Election, ctx: Context, el: seq<Address>, base: map<Address, int>)
    requires ctx.Valid()
  {
    && NoRepeats(el)
    && forall a :: a in el ==> Electable(e.store, ctx, a) && Untouched(e.updates, a) && SameAt(e.last, base, a)
  }

  lemma BondsFirst(st: Store, s: Store, r: Store, ctx: Context, el: seq<Address>)
    requires ctx.Valid() && el != [] && NoRepeats(el) && el[0] in st.validators && st.validators[el[0]].operator == el[0]
    requires
      var v := st.validators[el[0]];
      Moves(st, s, v.(status := Bonded), st.lastPowers[el[0] := Power(ctx, v.shares)])
    requires Bonds(s, r, ctx, el[1..])
    ensures Bonds(st, r, ctx, el)
  {
    hide Power;
    assert forall a :: a in el <==> a == el[0] || a in el[1..];
  }

  lemma PowersFirst(st: Store, s: Store, ctx: Context, el: seq<Address>)
    requires ctx.Valid() && el != [] && NoRepeats(el) && el[0] in st.validators
    requires s.validators == st.validators[el[0] := st.validators[el[0]].(status := Bonded)]
    ensures Sum(PowersOf(st, ctx, el)) == Power(ctx, st.validators[el[0]].shares) + Sum(PowersOf(s, ctx, el[1..]))
  {
    hide Power, Sum;
    var a, p := el[0], Power(ctx, st.validators[el[0]].shares);
    SumUpdate(PowersOf(s, ctx, el[1..]), a, p);
    assert forall b :: b in el <==> b == a || b in el[1..];
    assert PowersOf(st, ctx, el) == PowersOf(s, ctx, el[1..])[a := p];
  }

  lemma CanElectRest(e: Election, ctx: Context, el: seq<Address>, base: map<Address, int>)
    requires ctx.Valid() && el != [] && CanElect(e, ctx, el, base) && RecordsOk(e.store) && el[0] in e.store.validators
    requires
      var v := e.store.validators[el[0]];
      var r := Elect(e, ctx, v);
      && Moves(e.store, r.store, v.(status := Bonded), e.store.lastPowers[v.operator := Power(ctx, v.shares)])
      && (forall a :: a != v.operator && Untouched(e.updates, a) ==> Untouched(r.updates, a))
    ensures CanElect(Elect(e, ctx, e.store.validators[el[0]]), ctx, el[1..], base)
  {
    hide Power, Untouched, BondValidator;
    var v := e.store.validators[el[0]];
    assert RecordOk(v, el[0]);
    var r := Elect(e, ctx, v);
    forall a | a in el[1..]
      ensures Electable(r.store, ctx, a) && Untouched(r.updates, a) && SameAt(r.last, base, a)
    {
      assert a in el && a != el[0];
    }
  }

  lemma {:induction false} ElectAllBonds(e: Election, ctx: Context, el: seq<Address>, base: map<Address, int>)
    requires ctx.Valid() && Tracks(e, ctx, base) && CanElect(e, ctx, el, base)
    ensures
      var r := ElectAll(e, ctx, el);
      && Tracks(r, ctx, base) && Bonds(e.store, r.store, ctx, el)
      && r.last == e.last - Members(el) && r.total == e.total + Sum(PowersOf(e.store, ctx, el))
      && (forall a :: a !in el && Untouched(e.updates, a) ==> Untouched(r.updates, a))
    decreases |el|
  {
    hide Tracks, CanElect, Moves, Power, Elect, Untouched, Sum, PowersOf, Bonds;
    if el == [] {
      ElectNone(e.store, ctx);
    } else {
      CanElectFirst(e, ctx, el, base);
      var v := e.store.validators[el[0]];
      ElectTracks(e, ctx, v, base);
      ElectFields(e, ctx, v);
      var s := Elect(e, ctx, v);
      CanElectRest(e, ctx, el, base) by { TracksRecords(e, ctx, base); }
      ElectAllBonds(s, ctx, el[1..], base);
      MovesPowers(e.store, s.store, v.(status := Bonded), e.store.lastPowers[v.operator := Power(ctx, v.shares)]);
      PowersFirst(e.store, s.store, ctx, el);
      BondsFirst(e.store, s.store, ElectAll(s, ctx, el[1..]).store, ctx, el);
      assert Members(el) == {el[0]} + Members(el[1..]);
    }
  }

  lemma ElectNone(st: Store, ctx: Context)
    requires ctx.Valid()
    ensures Bonds(st, st, ctx, []) && Sum(PowersOf(st, ctx, [])) == 0
  {
    assert PowersOf(st, ctx, []) == map[];
  }

  lemma TracksRecords(e: Election, ctx: Context, base: map<Address, int>)
    requires ctx.Valid() && Tracks(e, ctx, base)
    ensures RecordsOk(e.store)
  {
  }

  lemma CanElectFirst(e: Election, ctx: Context, el: seq<Address>, base: map<Address, int>)
    requires ctx.Valid() && Tracks(e, ctx, base) && CanElect(e, ctx, el, base) && el != []
    ensures Electable(e.store, ctx, el[0]) && Untouched(e.updates, el[0]) && SameAt(e.last, base, el[0])
    ensures e.store.validators[el[0]].operator == el[0] && NoRepeats(el)
  {
    hide IndexOk, QueueOk, BondedOk, Applied, ExactDiff, Untouched, Power;
    assert el[0] in el && Electable(e.store, ctx, el[0]);
    assert RecordOk(e.store.validators[el[0]], el[0]);
  }

  lemma ElectFields(e: Election, ctx: Context, v: Validator)
    requires ctx.Valid()
    ensures Elect(e, ctx, v).last == e.last - {v.operator}
    ensures Elect(e, ctx, v).total == e.total + Power(ctx, v.shares)
  {
  }

  // ---------- Retiring in sequence ----------

  /** The validators of out begin unbonding and lose their last power; nothing else changes. */
  ghost predicate Retires(st: Store, r: Store, ctx: Context, out: seq<Address>) {
    && r == st.(validators := r.validators, queue := r.queue, lastPowers := r.lastPowers)
    && r.validators.Keys == st.validators.Keys
    && (forall a :: a in st.validators ==>
          r.validators[a] == if a in out then st.validators[a].(status := Unbonding, unbondingTime := ctx.maturity)
                             else st.validators[a])
    && r.lastPowers == st.lastPowers - Members(out)
  }

  ghost predicate CanRetire(e: Election, out: seq<Address>) {
    && NoRepeats(out)
    && forall a :: a in out ==>
         a in e.store.validators && e.store.validators[a].status == Bonded && Untouched(e.updates, a)
  }

  lemma RetiresFirst(st: Store, s: Store, r: Store, ctx: Context, out: seq<Address>)
    requires out != [] && NoRepeats(out) && out[0] in st.validators && st.validators[out[0]].operator == out[0]
    requires
      var v := st.validators[out[0]];
      Moves(st, s, v.(status := Unbonding, unbondingTime := ctx.maturity), st.lastPowers - {out[0]})
    requires Retires(s, r, ctx, out[1..])
    ensures Retires(st, r, ctx, out)
  {
    assert forall a :: a in out <==> a == out[0] || a in out[1..];
    assert Members(out) == {out[0]} + Members(out[1..]);
  }

  lemma CanRetireRest(e: Election, ctx: Context, out: seq<Address>)
    requires ctx.Valid() && out != [] && CanRetire(e, out) && e.store.validators[out[0]].operator == out[0]
    requires
      var v := e.store.validators[out[0]];
      var r := Retire(e, ctx, v);
      && Moves(e.store, r.store, v.(status := Unbonding, unbondingTime := ctx.maturity), e.store.lastPowers - {v.operator})
      && (forall a :: a != v.operator && Untouched(e.updates, a) ==> Untouched(r.updates, a))
    ensures CanRetire(Retire(e, ctx, e.store.validators[out[0]]), out[1..])
  {
    hide Power, Untouched, BeginUnbonding;
    var r := Retire(e, ctx, e.store.validators[out[0]]);
    forall a | a in out[1..]
      ensures a in r.store.validators && r.store.validators[a].status == Bonded && Untouched(r.updates, a)
    {
      assert a in out && a != out[0];
    }
  }

  /** Retiring bonded validators succeeds, and leaves the copy of the last powers and the total. */
  lemma {:induction false} RetireAllRetires(e: Election, ctx: Context, out: seq<Address>, base: map<Address, int>)
    requires ctx.Valid() && Tracks(e, ctx, base) && CanRetire(e, out)
    ensures
      var r := RetireAll(e, ctx, out);
      && RetireLoop(e, ctx, out) == Ok(r)
      && Tracks(r, ctx, base) && Retires(e.store, r.store, ctx, out)
      && r.last == e.last && r.total == e.total
      && (forall a :: a !in out && Untouched(e.updates, a) ==> Untouched(r.updates, a))
    decreases |out|
  {
    hide Tracks, CanRetire, Moves, BeginUnbonding, Untouched, Retires;
    if out == [] {
      RetireNone(e.store, ctx);
    } else {
      CanRetireFirst(e, ctx, out, base);
      var v := e.store.validators[out[0]];
      RetireTracks(e, ctx, v, base);
      var s := Retire(e, ctx, v);
      CanRetireRest(e, ctx, out);
      RetireAllRetires(s, ctx, out[1..], base);
      RetiresFirst(e.store, s.store, RetireAll(s, ctx, out[1..]).store, ctx, out);
    }
  }

  lemma RetireNone(st: Store, ctx: Context)
    ensures Retires(st, st, ctx, [])
  {
    assert st.lastPowers - Members([]) == st.lastPowers;
  }

  lemma CanRetireFirst(e: Election, ctx: Context, out: seq<Address>, base: map<Address, int>)
    requires ctx.Valid() && Tracks(e, ctx, base) && CanRetire(e, out) && out != []
    ensures out[0] in e.store.validators && e.store.validators[out[0]].status == Bonded && Untouched(e.updates, out[0])
    ensures e.store.validators[out[0]].operator == out[0] && NoRepeats(out)
  {
    hide IndexOk, QueueOk, BondedOk, Applied, ExactDiff, Untouched;
    assert RecordOk(e.store.validators[out[0]], out[0]);
  }
}
