/** The end of a block: the validator set changes, mature validators unbond, and mature
    undelegations are paid. */
module EndBlocks {
  import opened EvmTypes
  import opened Coins
  import opened Sums
  import opened StakingStore
  import opened StakingInvariants
  import opened ShareUpdates
  import opened StakingMessages
  import opened DelegatorMessages
  import opened ValidatorMessages
  import opened ValidatorSet
  import opened Elections
  import opened EpochElections
  import opened KickOuts

  // ---------- Changes of status only ----------

  lemma MeritsShares(st: Store, r: Store)
    requires SharesOk(st) && SameMerits(st, r) && r.shares == st.shares && r.delegators == st.delegators
    ensures SharesOk(r)
  {
    hide ShareSum;
    forall a | a in r.validators
      ensures SharesAt(r, a)
    {
      assert SharesAt(st, a);
    }
    forall k
      ensures ShareAt(r.shares, k) == Recorded(r, k)
    {
      assert ShareAt(st.shares, k) == Recorded(st, k);
    }
  }

  lemma MeritsPools(st: Store, r: Store)
    requires SameMerits(st, r)
    ensures SelfDelegations(r.validators) == SelfDelegations(st.validators)
  {
  }

  /** Everything but records, sets and queues is the same. */
  ghost predicate SameStake(st: Store, r: Store) {
    && r.shares == st.shares && r.delegators == st.delegators && r.bindings == st.bindings
    && r.undelegations == st.undelegations && r.timeKeys == st.timeKeys
    && r.bonded == st.bonded && r.notBonded == st.notBonded && r.balances == st.balances
  }

  lemma StatusKeeps(st: Store, r: Store, ctx: Context)
    requires ctx.Valid() && Inv(st, ctx) && SameMerits(st, r) && SameStake(st, r) && ValidatorsOk(r, ctx)
    ensures Inv(r, ctx)
  {
    hide ValidatorsOk, SharesOk, DelegatorsOk, UndelegationsOk, SameMerits, Sum, Tokens, SelfDelegations, Quantities;
    MeritsShares(st, r);
    MeritsPools(st, r);
    UnbondBooks(st, r);
    ResharesUndelegations(st, r);
  }

  lemma SharesNonNegative(st: Store)
    requires SharesOk(st)
    ensures NonNegative(st)
  {
    hide SharesOk, ShareSum;
    forall a | a in st.validators
      ensures st.validators[a].shares >= 0
    {
      TotalOf(st, a);
    }
  }

  lemma ElectsMerits(st: Store, r: Store, ctx: Context, el: seq<Address>)
    requires ctx.Valid() && Elects(st, r, ctx, el)
    ensures SameMerits(st, r.(abandoned := [])) && SameStake(st, r.(abandoned := []))
  {
    hide PowersOf;
  }

  lemma ReplacesMerits(st: Store, r: Store, ctx: Context, el: seq<Address>)
    requires ctx.Valid() && Replaces(st, r, ctx, el)
    ensures SameMerits(st, r.(abandoned := [])) && SameStake(st, r.(abandoned := []))
  {
    hide Power;
  }

  lemma ClearAbandoned(st: Store, ctx: Context)
    requires ctx.Valid() && RecordsOk(st) && IndexOk(st, ctx) && QueueOk(st) && LastOk(st)
    ensures ValidatorsOk(st.(abandoned := []), ctx)
  {
    hide Power, Sum;
    var r := st.(abandoned := []);
    forall k
      ensures k in r.powerIndex <==> Indexes(r, ctx, k)
    {
      assert k in st.powerIndex <==> Indexes(st, ctx, k);
    }
    forall t, a | t in r.queue && a in r.queue[t]
      ensures Queued(r, t, a)
    {
      assert Queued(st, t, a);
    }
  }

  // ---------- The change of the set ----------

  predicate IsBonded(st: Store, a: Address) {
    a in st.validators && st.validators[a].status == Bonded
  }

  /** Who is bonded when the block ends: at the end of an epoch the elected, in the middle of one
      those bonded before but the abandoned, and those promoted in their places. */
  ghost predicate Seated(st: Store, ctx: Context, endOfEpoch: bool, a: Address)
    requires ctx.Valid()
  {
    if endOfEpoch then a in Elected(st, ctx)
    else (IsBonded(st, a) && a !in st.abandoned) || a in Promoted(st, ctx)
  }

  /** A validator's record after the change of the set. */
  function Reseated(st: Store, ctx: Context, endOfEpoch: bool, a: Address): Validator
    requires ctx.Valid() && a in st.validators
  {
    if endOfEpoch then Reelected(st.validators[a], ctx, a in Elected(st, ctx))
    else Replaced(st.validators[a], ctx, a in Promoted(st, ctx), a in st.abandoned)
  }

  /** The last powers after it: at the end of an epoch everyone's current power, in the middle of
      one only the promoted come with theirs. */
  ghost function Seats(st: Store, ctx: Context, endOfEpoch: bool): map<Address, int>
    requires ctx.Valid()
  {
    if endOfEpoch then PowersOf(st, ctx, Elected(st, ctx))
    else (st.lastPowers - Members(st.abandoned)) + PowersOf(st, ctx, Promoted(st, ctx))
  }

  /** Nothing but the set changes, and it changes to exactly that. */
  ghost predicate Reseats(st: Store, r: Store, ctx: Context, endOfEpoch: bool)
    requires ctx.Valid()
  {
    && r.validators.Keys == st.validators.Keys
    && (forall a :: a in st.validators ==> r.validators[a] == Reseated(st, ctx, endOfEpoch, a))
    && r.lastPowers == Seats(st, ctx, endOfEpoch) && r.lastTotal == Sum(r.lastPowers) && r.abandoned == []
    && SameStake(st, r)
  }

  lemma ElectsReseats(st: Store, r: Store, ctx: Context)
    requires ctx.Valid() && Elects(st, r, ctx, Elected(st, ctx)) && LastOk(r)
    ensures Reseats(st, r.(abandoned := []), ctx, true)
  {
    hide Elected, PowersOf, Sum;
  }

  lemma ReplacesReseats(st: Store, r: Store, ctx: Context)
    requires ctx.Valid() && Replaces(st, r, ctx, Promoted(st, ctx)) && LastOk(r)
    ensures Reseats(st, r.(abandoned := []), ctx, false)
  {
    hide Promoted, Sum, Power;
    assert r.lastPowers == Seats(st, ctx, false);
  }

  /** Nobody is promoted into no place. */
  lemma IdleReseats(st: Store, ctx: Context)
    requires ctx.Valid() && LastOk(st) && st.abandoned == []
    ensures Reseats(st, st, ctx, false)
  {
    hide Sum, Power, Eligibles, Ranking;
    assert Promoted(st, ctx) == [];
    assert Seats(st, ctx, false) == st.lastPowers;
  }

  /** Either way of changing the set succeeds, keeps the invariant, seats exactly the elected, or
      replaces exactly the abandoned, and tells the consensus engine exactly what changed. */
  lemma EndOfSetKeeps(st: Store, ctx: Context, endOfEpoch: bool)
    requires ctx.Valid() && Inv(st, ctx)
    ensures
      var r := EndOfSet(st, ctx, endOfEpoch);
      && r.Ok? && Inv(r.value.0, ctx) && SameMerits(st, r.value.0) && SameStake(st, r.value.0)
      && Reseats(st, r.value.0, ctx, endOfEpoch)
      && (forall a :: IsBonded(r.value.0, a) <==> Seated(st, ctx, endOfEpoch, a))
      && Applied(st.lastPowers, r.value.1) == r.value.0.lastPowers && ExactDiff(st.lastPowers, r.value.1)
      && r.value.0.abandoned == []
  {
    hide RecordsOk, IndexOk, QueueOk, LastOk, AbandonedOk, SharesOk, DelegatorsOk, UndelegationsOk, PoolsOk, NonNegative,
      Elects, Replaces, ApplyUpdates, KickOut, Elected, Promoted, AbandonedBonded, Applied, ExactDiff, SameMerits, SameStake,
      Reseats, IsBonded, Seated;
    SharesNonNegative(st);
    if !endOfEpoch && st.abandoned == [] {
      NoChange(st);
      IdleReseats(st, ctx);
    } else if endOfEpoch {
      ApplyElects(st, ctx);
      var r := ApplyUpdates(st, ctx).value.0;
      ElectsMerits(st, r, ctx, Elected(st, ctx));
      ElectsReseats(st, r, ctx);
      ClearAbandoned(r, ctx);
      StatusKeeps(st, r.(abandoned := []), ctx);
    } else {
      AbandonedAreBonded(st);
      KickOutReplaces(st, ctx);
      var r := KickOut(st, ctx).value.0;
      ReplacesMerits(st, r, ctx, Promoted(st, ctx));
      ReplacesReseats(st, r, ctx);
      ClearAbandoned(r, ctx);
      StatusKeeps(st, r.(abandoned := []), ctx);
    }
    SeatedBonded(st, EndOfSet(st, ctx, endOfEpoch).value.0, ctx, endOfEpoch);
  }

  lemma SeatedBonded(st: Store, r: Store, ctx: Context, endOfEpoch: bool)
    requires ctx.Valid() && Inv(st, ctx) && Inv(r, ctx) && Reseats(st, r, ctx, endOfEpoch)
    ensures forall a :: IsBonded(r, a) <==> Seated(st, ctx, endOfEpoch, a)
  {
    hide RecordsOk, IndexOk, QueueOk, AbandonedOk, SharesOk, DelegatorsOk, UndelegationsOk, PoolsOk, Sum, Power, SameStake,
      Ranking, Eligibles;
    forall a
      ensures IsBonded(r, a) <==> Seated(st, ctx, endOfEpoch, a)
    {
      TakenEligible(st, ctx, Ranking(st), {}, ctx.maxValidators, a);
      TakenEligible(st, ctx, Ranking(st), st.lastPowers.Keys, |st.abandoned|, a);
      assert a in r.lastPowers <==> IsBonded(r, a);
      assert a in st.lastPowers <==> IsBonded(st, a);
    }
  }

  lemma TakenEligible(st: Store, ctx: Context, keys: seq<PowerKey>, skip: set<Address>, n: int, a: Address)
    requires ctx.Valid()
    ensures a in Take(Eligibles(st, ctx, keys, skip), n) ==> a in st.validators && Eligible(st, ctx, a)
  {
    assert a in Take(Eligibles(st, ctx, keys, skip), n) ==> a in Eligibles(st, ctx, keys, skip);
  }

  lemma NoChange(st: Store)
    ensures SameMerits(st, st) && SameStake(st, st) && Applied(st.lastPowers, []) == st.lastPowers
    ensures ExactDiff(st.lastPowers, [])
  {
  }

  // ---------- Maturing validators ----------

  /** The store as it will be once only rest is left of the time slice t. */
  function Pending(st: Store, t: Time, rest: seq<Address>): Store {
    st.(queue := if rest == [] then st.queue - {t} else st.queue[t := rest])
  }

  lemma PendingFirst(st: Store, ctx: Context, t: Time, rest: seq<Address>)
    requires ctx.Valid() && ValidatorsOk(Pending(st, t, rest), ctx) && rest != []
    ensures rest[0] in st.validators && RecordOk(st.validators[rest[0]], rest[0])
    ensures st.validators[rest[0]].status == Unbonding && st.validators[rest[0]].unbondingTime == t && NoRepeats(rest)
  {
    hide IndexOk, LastOk, AbandonedOk;
    assert Queued(Pending(st, t, rest), t, rest[0]);
    assert RecordOk(Pending(st, t, rest).validators[rest[0]], rest[0]);
  }

  /** A mature validator becomes unbonded. */
  lemma UnbondedKeeps(st: Store, ctx: Context, t: Time, rest: seq<Address>)
    requires ctx.Valid() && Inv(Pending(st, t, rest), ctx) && rest != [] && rest[0] in st.validators
    requires st.validators[rest[0]].operator == rest[0]
    ensures Inv(Pending(SetValidator(st, st.validators[rest[0]].(status := Unbonded)), t, rest[1..]), ctx)
  {
    hide IndexOk, LastOk, AbandonedOk, QueueOk, RecordsOk, SharesOk, DelegatorsOk, UndelegationsOk, PoolsOk;
    PendingFirst(st, ctx, t, rest);
    var v := st.validators[rest[0]].(status := Unbonded);
    var p := Pending(st, t, rest);
    var r := Pending(SetValidator(st, v), t, rest[1..]);
    IndexKept(p, r, ctx, v);
    UnbondedLast(p, r, v);
    UnbondedQueue(st, t, rest, v);
    StatusKeeps(p, r, ctx);
  }

  lemma UnbondedLast(p: Store, r: Store, v: Validator)
    requires LastOk(p) && AbandonedOk(p) && v.operator in p.validators && p.validators[v.operator].status == Unbonding
    requires v.status == Unbonded && r.validators == p.validators[v.operator := v]
    requires r.lastPowers == p.lastPowers && r.lastTotal == p.lastTotal && r.abandoned == p.abandoned
    ensures LastOk(r) && AbandonedOk(r)
  {
    hide Sum;
    forall a | a in r.abandoned
      ensures Abandons(r, a)
    {
      assert Abandons(p, a);
    }
  }

  lemma UnbondedQueue(st: Store, t: Time, rest: seq<Address>, v: Validator)
    requires QueueOk(Pending(st, t, rest)) && rest != [] && v.operator == rest[0] && v.status == Unbonded
    requires rest[0] in st.validators
    ensures QueueOk(Pending(SetValidator(st, v), t, rest[1..]))
  {
    var p, r := Pending(st, t, rest), Pending(SetValidator(st, v), t, rest[1..]);
    assert Queued(p, t, rest[0]) && NoRepeats(p.queue[t]);
    TailDistinct(rest);
    forall s | s in r.queue
      ensures r.queue[s] != [] && NoRepeats(r.queue[s])
    {
      assert s in p.queue && NoRepeats(p.queue[s]);
    }
    forall s, a | s in r.queue && a in r.queue[s]
      ensures Queued(r, s, a)
    {
      assert s in p.queue && a in p.queue[s];
      assert Queued(p, s, a);
    }
    forall a | a in r.validators && r.validators[a].status == Unbonding
      ensures r.validators[a].unbondingTime in r.queue && a in r.queue[r.validators[a].unbondingTime]
    {
      assert a != rest[0] && p.validators[a] == r.validators[a];
      assert p.validators[a].unbondingTime == t ==> a in rest;
    }
  }

  /** A validator without shares or self delegation goes. */
  lemma EmptiedKeeps(st: Store, ctx: Context, a: Address)
    requires ctx.Valid() && Inv(st, ctx) && a in st.validators && st.validators[a].status == Unbonded
    requires st.validators[a].shares == 0 && st.validators[a].minSelfDelegation == 0
    ensures Inv(RemoveValidator(st, ctx, a), ctx)
  {
    hide ValidatorsOk, SharesOk, DelegatorsOk, UndelegationsOk, Sum, Tokens, SelfDelegations, Quantities, Power, ShareSum;
    var r := RemoveValidator(st, ctx, a);
    OperatorOf(st, ctx, a);
    RemovedKeeps(st, ctx, a);
    TotalOf(st, a);
    RemovedShares(st, r, a);
    SelfDelegationsRemove(st.validators, a);
    UnbondBooks(st, r);
    ResharesUndelegations(st, r);
  }

  lemma PendingRemove(st: Store, ctx: Context, t: Time, rest: seq<Address>, a: Address)
    requires ctx.Valid()
    ensures Pending(RemoveValidator(st, ctx, a), t, rest) == RemoveValidator(Pending(st, t, rest), ctx, a)
  {
    hide Power;
  }

  lemma MatureOneKeeps(st: Store, ctx: Context, t: Time, rest: seq<Address>)
    requires ctx.Valid() && Inv(Pending(st, t, rest), ctx) && rest != []
    ensures rest[0] in st.validators && st.validators[rest[0]].status == Unbonding
    ensures st.validators[rest[0]].operator == rest[0] && st.validators[rest[0]].unbondingTime == t && NoRepeats(rest)
    ensures Inv(Pending(MatureOne(st, ctx, st.validators[rest[0]]), t, rest[1..]), ctx)
  {
    hide Inv, ValidatorsOk, Pending, RemoveValidator;
    ValidatorsOf(Pending(st, t, rest), ctx);
    PendingFirst(st, ctx, t, rest);
    UnbondedKeeps(st, ctx, t, rest);
    var v := st.validators[rest[0]];
    if v.shares == 0 && v.minSelfDelegation == 0 {
      var s := SetValidator(st, v.(status := Unbonded));
      PendingRecords(s, t, rest[1..]);
      EmptiedKeeps(Pending(s, t, rest[1..]), ctx, rest[0]);
      PendingRemove(s, ctx, t, rest[1..], rest[0]);
    }
  }

  lemma PendingRecords(st: Store, t: Time, rest: seq<Address>)
    ensures Pending(st, t, rest).validators == st.validators
  {
  }

  lemma ValidatorsOf(st: Store, ctx: Context)
    requires ctx.Valid() && Inv(st, ctx)
    ensures ValidatorsOk(st, ctx)
  {
    hide ValidatorsOk, SharesOk, DelegatorsOk, UndelegationsOk, PoolsOk;
  }

  predicate Empty(v: Validator) {
    v.shares == 0 && v.minSelfDelegation == 0
  }

  /** The validators that are done become unbonded, or go when nothing is left on them; the
      stakes stay. */
  ghost predicate Matures(st: Store, r: Store, done: set<Address>) {
    && (forall a :: a in r.validators <==> a in st.validators && !(a in done && Empty(st.validators[a])))
    && (forall a :: a in r.validators ==>
          r.validators[a] == if a in done then st.validators[a].(status := Unbonded) else st.validators[a])
    && SameStake(st, r) && r.lastPowers == st.lastPowers && r.lastTotal == st.lastTotal && r.abandoned == st.abandoned
  }

  lemma MatureOneMatures(st: Store, ctx: Context, v: Validator)
    requires ctx.Valid() && v.operator in st.validators && st.validators[v.operator] == v
    ensures
      var r := MatureOne(st, ctx, v);
      Matures(st, r, {v.operator}) && r.queue == st.queue
  {
    hide Power, Matures;
    var u := v.(status := Unbonded);
    assert st.validators[v.operator := u] - {v.operator} == st.validators - {v.operator};
    if Empty(v) {
      RemovedMatures(st, v, st.powerIndex - {KeyOf(ctx, u)});
    } else {
      UnbondedMatures(st, v);
    }
  }

  lemma RemovedMatures(st: Store, v: Validator, index: set<PowerKey>)
    requires v.operator in st.validators && st.validators[v.operator] == v && Empty(v)
    ensures Matures(st, st.(validators := st.validators - {v.operator}, powerIndex := index), {v.operator})
  {
  }

  lemma UnbondedMatures(st: Store, v: Validator)
    requires v.operator in st.validators && st.validators[v.operator] == v && !Empty(v)
    ensures Matures(st, st.(validators := st.validators[v.operator := v.(status := Unbonded)]), {v.operator})
  {
  }

  lemma MaturesBoth(st: Store, s: Store, r: Store, d: set<Address>, d': set<Address>)
    requires Matures(st, s, d) && Matures(s, r, d')
    ensures Matures(st, r, d + d')
  {
  }

  /** A slice of the queue matures without a panic. */
  lemma {:induction false} MatureSliceKeeps(st: Store, ctx: Context, t: Time, rest: seq<Address>)
    requires ctx.Valid() && Inv(Pending(st, t, rest), ctx)
    ensures
      var r := MatureSlice(st, ctx, rest);
      && r.Ok? && Inv(Pending(r.value, t, []), ctx)
      && Matures(st, r.value, Members(rest)) && r.value.queue == st.queue
    decreases |rest|
  {
    hide Inv, Pending, MatureOne, Matures;
    if rest == [] {
      MaturesNone(st);
    } else {
      MatureOneKeeps(st, ctx, t, rest);
      var v := st.validators[rest[0]];
      MatureOneMatures(st, ctx, v);
      var s := MatureOne(st, ctx, v);
      MatureSliceKeeps(s, ctx, t, rest[1..]);
      MaturesBoth(st, s, MatureSlice(s, ctx, rest[1..]).value, {v.operator}, Members(rest[1..]));
      assert {v.operator} + Members(rest[1..]) == Members(rest);
    }
  }

  lemma MaturesNone(st: Store)
    ensures Matures(st, st, Members([]))
  {
  }

  /** The unbonding validators whose time is among those given. */
  function Due(st: Store, times: seq<Time>): (r: set<Address>)
    ensures forall a :: a in r <==>
              a in st.validators && st.validators[a].status == Unbonding && st.validators[a].unbondingTime in times
  {
    set a | a in st.validators && st.validators[a].status == Unbonding && st.validators[a].unbondingTime in times
  }

  lemma DueFirst(st: Store, s: Store, t: Time, times: seq<Time>)
    requires QueueOk(st) && t in st.queue && Matures(st, s, Members(st.queue[t]))
    ensures Due(st, [t] + times) == Members(st.queue[t]) + Due(s, times)
  {
    forall a
      ensures a in Due(st, [t] + times) <==> a in st.queue[t] || a in Due(s, times)
    {
      assert a in st.queue[t] ==> Queued(st, t, a);
    }
  }

  lemma PendingWhole(st: Store, ctx: Context, t: Time)
    requires ctx.Valid() && Inv(st, ctx) && t in st.queue
    ensures Pending(st, t, st.queue[t]) == st && QueueOk(st)
  {
    hide Inv;
    ValidatorsOf(st, ctx);
    QueueOf(st, ctx);
    assert st.queue[t := st.queue[t]] == st.queue;
  }

  lemma QueueOf(st: Store, ctx: Context)
    requires ctx.Valid() && ValidatorsOk(st, ctx)
    ensures QueueOk(st)
  {
    hide RecordsOk, IndexOk, LastOk, AbandonedOk, QueueOk;
  }

  ghost predicate Increasing(times: seq<Time>) {
    forall i, j :: 0 <= i < j < |times| ==> times[i] < times[j]
  }

  lemma {:induction false} MatureLoopKeeps(st: Store, ctx: Context, times: seq<Time>)
    requires ctx.Valid() && Inv(st, ctx) && Increasing(times) && (forall t :: t in times ==> t in st.queue)
    ensures
      var r := MatureLoop(st, ctx, times);
      && r.Ok? && Inv(r.value, ctx)
      && Matures(st, r.value, Due(st, times)) && r.value.queue == st.queue - (set t | t in times)
    decreases |times|
  {
    hide Inv, MatureSlice, Matures, QueueOk, Due;
    if times == [] {
      MaturesNever(st);
    } else {
      var t := times[0];
      assert t in times;
      PendingWhole(st, ctx, t);
      var slice := st.queue[t];
      MatureSliceKeeps(st, ctx, t, slice);
      var m := MatureSlice(st, ctx, slice).value;
      var s := m.(queue := m.queue - {t});
      MaturesQueue(st, m, s, Members(slice));
      MatureLoopKeeps(s, ctx, times[1..]);
      DueFirst(st, s, t, times[1..]);
      assert [t] + times[1..] == times;
      MaturesBoth(st, s, MatureLoop(s, ctx, times[1..]).value, Members(slice), Due(s, times[1..]));
      assert (set x | x in times) == {t} + (set x | x in times[1..]);
    }
  }

  lemma MaturesQueue(st: Store, m: Store, s: Store, d: set<Address>)
    requires Matures(st, m, d) && s == m.(queue := s.queue)
    ensures Matures(st, s, d)
  {
  }

  lemma MaturesNever(st: Store)
    ensures Matures(st, st, Due(st, [])) && st.queue - (set t | t in []) == st.queue
  {
    var none: seq<Time> := [];
    assert (set t | t in none) == {};
  }

  /** The unbonding validators whose time has come. */
  function Mature(st: Store, ctx: Context): set<Address> {
    set a | a in st.validators && st.validators[a].status == Unbonding && st.validators[a].unbondingTime <= ctx.now
  }

  /** UnbondAllMatureValidatorQueue never panics, matures exactly the validators whose time has
      come, and leaves no mature time slice. */
  lemma UnbondAllMatureKeeps(st: Store, ctx: Context)
    requires ctx.Valid() && Inv(st, ctx)
    ensures
      var r := UnbondAllMature(st, ctx);
      && r.Ok? && Inv(r.value, ctx)
      && Matures(st, r.value, Mature(st, ctx))
      && (forall t :: t in r.value.queue ==> t > ctx.now)
  {
    hide Inv, Matures, MatureLoop, QueueOk;
    var times := MatureTimes(st, ctx);
    MatureLoopKeeps(st, ctx, times);
    ValidatorsOf(st, ctx);
    QueueOf(st, ctx);
    DueMature(st, ctx, times);
  }

  lemma DueMature(st: Store, ctx: Context, times: seq<Time>)
    requires QueueOk(st) && forall t :: t in times <==> t in st.queue && t <= ctx.now
    ensures Due(st, times) == Mature(st, ctx)
  {
  }

  // ---------- Completing undelegations ----------

  /** One completed undelegation is paid in full and forgotten. */
  ghost predicate Pays(st: Store, r: Store, k: TimeKey)
    requires k.delegator in st.undelegations
  {
    r == st.(timeKeys := st.timeKeys - {k},
             notBonded := st.notBonded - st.undelegations[k.delegator].quantity,
             balances := st.balances[k.delegator := BalanceOf(st, k.delegator) + st.undelegations[k.delegator].quantity],
             undelegations := st.undelegations - {k.delegator})
  }

  /** The pool covers every undelegation. */
  lemma PoolCovers(st: Store, a: Address)
    requires UndelegationsOk(st) && st.notBonded == Sum(Quantities(st.undelegations)) && a in st.undelegations
    ensures 0 < st.undelegations[a].quantity <= st.notBonded
  {
    var q := Quantities(st.undelegations);
    SumNonNegative(q);
    assert a in q;
  }

  lemma CompleteKeeps(st: Store, ctx: Context, k: TimeKey)
    requires ctx.Valid() && Inv(st, ctx) && k in st.timeKeys
    ensures k.delegator in st.undelegations && st.undelegations[k.delegator].completion == k.time
    ensures Pays(st, Complete(st, k), k) && Inv(Complete(st, k), ctx)
  {
    hide ValidatorsOk, SharesOk, DelegatorsOk, Sum, Tokens, SelfDelegations, Quantities, ShareTotalsOk, SameLists;
    assert Keyed(st, k);
    PoolCovers(st, k.delegator);
    var r := Complete(st, k);
    SharesOkOthers(st, k.delegator);
    SameSetKeeps(st, r, ctx);
    ListsSame(st.delegators);
    SharesFrame(st, r);
    UnbondBooks(st, r);
    PaidRecords(st, r, k);
  }

  lemma PaidRecords(st: Store, r: Store, k: TimeKey)
    requires UndelegationsOk(st) && k in st.timeKeys && k.delegator in st.undelegations && Pays(st, r, k)
    ensures UndelegationsOk(r)
    ensures Sum(Quantities(r.undelegations)) == Sum(Quantities(st.undelegations)) - st.undelegations[k.delegator].quantity
  {
    hide Sum;
    assert Keyed(st, k);
    forall j
      ensures j in r.timeKeys <==> Keyed(r, j)
    {
      assert j in st.timeKeys <==> Keyed(st, j);
    }
    SumRemove(Quantities(st.undelegations), k.delegator);
    assert Quantities(r.undelegations) == Quantities(st.undelegations) - {k.delegator};
  }

  /** What a delegator is owed among the keys. */
  function Owed(st: Store, keys: seq<TimeKey>, a: Address): int {
    if a in st.undelegations && TimeKey(st.undelegations[a].completion, a) in keys then st.undelegations[a].quantity else 0
  }

  /** Everyone with a key is paid once and in full, and their records go; nothing else changes. */
  ghost predicate PaysAll(st: Store, r: Store, keys: seq<TimeKey>) {
    && (forall a :: BalanceOf(r, a) == BalanceOf(st, a) + Owed(st, keys, a))
    && (forall a :: a in r.undelegations <==> a in st.undelegations && TimeKey(st.undelegations[a].completion, a) !in keys)
    && (forall a :: a in r.undelegations ==> r.undelegations[a] == st.undelegations[a])
    && r == st.(timeKeys := r.timeKeys, notBonded := r.notBonded, balances := r.balances, undelegations := r.undelegations)
  }

  lemma PaysFirst(st: Store, s: Store, r: Store, k: TimeKey, keys: seq<TimeKey>)
    requires k.delegator in st.undelegations && st.undelegations[k.delegator].completion == k.time
    requires Pays(st, s, k) && PaysAll(s, r, keys)
    ensures PaysAll(st, r, [k] + keys)
  {
    forall a
      ensures BalanceOf(r, a) == BalanceOf(st, a) + Owed(st, [k] + keys, a)
    {
      assert BalanceOf(r, a) == BalanceOf(s, a) + Owed(s, keys, a);
    }
  }

  ghost predicate Ordered(keys: seq<TimeKey>) {
    forall i, j :: 0 <= i < j < |keys| ==> TimeBefore(keys[i], keys[j])
  }

  lemma OrderedRest(keys: seq<TimeKey>)
    requires Ordered(keys) && keys != []
    ensures Ordered(keys[1..]) && keys[0] !in keys[1..]
  {
    forall i, j | 0 <= i < j < |keys[1..]|
      ensures TimeBefore(keys[1..][i], keys[1..][j])
    {
      assert keys[1..][i] == keys[i + 1] && keys[1..][j] == keys[j + 1];
    }
    forall i | 0 <= i < |keys[1..]|
      ensures keys[1..][i] != keys[0]
    {
      assert TimeBefore(keys[0], keys[i + 1]);
    }
  }

  lemma {:induction false} CompleteLoopPays(st: Store, ctx: Context, keys: seq<TimeKey>)
    requires ctx.Valid() && Inv(st, ctx) && Ordered(keys) && (forall k :: k in keys ==> k in st.timeKeys)
    ensures
      var r := CompleteLoop(st, keys);
      Inv(r, ctx) && PaysAll(st, r, keys)
    decreases |keys|
  {
    hide Inv, Complete, PaysAll, Ordered;
    if keys == [] {
      PaysNone(st);
    } else {
      var k := keys[0];
      assert k in keys;
      CompleteKeeps(st, ctx, k);
      var s := Complete(st, k);
      OrderedRest(keys);
      CompleteLoopPays(s, ctx, keys[1..]);
      PaysFirst(st, s, CompleteLoop(s, keys[1..]), k, keys[1..]);
      assert [k] + keys[1..] == keys;
    }
  }

  lemma PaysNone(st: Store)
    ensures PaysAll(st, st, [])
  {
  }

  // ---------- EndBlocker ----------

  /** What a delegator is due at the end of the block. */
  function DueNow(st: Store, ctx: Context, a: Address): int {
    if a in st.undelegations && st.undelegations[a].completion <= ctx.now then st.undelegations[a].quantity else 0
  }

  /** After a block no mature undelegation is left, and each was paid out once in full. */
  ghost predicate PaysDue(st: Store, r: Store, ctx: Context) {
    && (forall a :: BalanceOf(r, a) == BalanceOf(st, a) + DueNow(st, ctx, a))
    && (forall a :: a in r.undelegations <==> a in st.undelegations && st.undelegations[a].completion > ctx.now)
    && (forall a :: a in r.undelegations ==> r.undelegations[a] == st.undelegations[a])
  }

  lemma PaysDueNow(st: Store, m: Store, r: Store, ctx: Context)
    requires UndelegationsOk(m) && SameStake(st, m) && PaysAll(m, r, MatureKeys(m, ctx))
    ensures PaysDue(st, r, ctx)
  {
    var keys := MatureKeys(m, ctx);
    forall a | a in m.undelegations
      ensures TimeKey(m.undelegations[a].completion, a) in keys <==> m.undelegations[a].completion <= ctx.now
    {
      var k := TimeKey(m.undelegations[a].completion, a);
      assert k in m.timeKeys <==> Keyed(m, k);
    }
    forall a
      ensures BalanceOf(r, a) == BalanceOf(st, a) + DueNow(st, ctx, a)
    {
      assert BalanceOf(r, a) == BalanceOf(m, a) + Owed(m, keys, a);
    }
  }

  /** A validator's record at the end of the block: reseated, and unbonded when that matured. */
  function Ended(st: Store, ctx: Context, endOfEpoch: bool, a: Address): Validator
    requires ctx.Valid() && a in st.validators
  {
    var v := Reseated(st, ctx, endOfEpoch, a);
    if v.status == Unbonding && v.unbondingTime <= ctx.now then v.(status := Unbonded) else v
  }

  /** Whether it is gone then, because nothing is left on it. */
  predicate Expired(st: Store, ctx: Context, endOfEpoch: bool, a: Address)
    requires ctx.Valid() && a in st.validators
  {
    var v := Reseated(st, ctx, endOfEpoch, a);
    v.status == Unbonding && v.unbondingTime <= ctx.now && Empty(v)
  }

  /** The validators a block leaves, with their last powers and nothing else changed but pools,
      balances and undelegations. */
  ghost predicate Ends(st: Store, r: Store, ctx: Context, endOfEpoch: bool)
    requires ctx.Valid()
  {
    && (forall a :: a in r.validators <==> a in st.validators && !Expired(st, ctx, endOfEpoch, a))
    && (forall a :: a in r.validators ==> r.validators[a] == Ended(st, ctx, endOfEpoch, a))
    && r.lastPowers == Seats(st, ctx, endOfEpoch) && r.lastTotal == Sum(r.lastPowers) && r.abandoned == []
    && r.shares == st.shares && r.delegators == st.delegators && r.bindings == st.bindings && r.bonded == st.bonded
  }

  lemma ReseatsEnds(st: Store, s: Store, m: Store, r: Store, ctx: Context, endOfEpoch: bool)
    requires ctx.Valid() && Reseats(st, s, ctx, endOfEpoch) && Matures(s, m, Mature(s, ctx))
    requires r == m.(timeKeys := r.timeKeys, notBonded := r.notBonded, balances := r.balances, undelegations := r.undelegations)
    ensures Ends(st, r, ctx, endOfEpoch)
  {
    hide Reseated, Seats, Sum;
  }

  lemma EndsBonded(st: Store, s: Store, r: Store, ctx: Context, endOfEpoch: bool)
    requires ctx.Valid() && Reseats(st, s, ctx, endOfEpoch) && Ends(st, r, ctx, endOfEpoch)
    ensures forall a :: IsBonded(r, a) <==> IsBonded(s, a)
  {
    hide Reseated, Seats, Sum;
  }

  /** EndBlocker never panics and keeps the invariant.  Exactly the elected are bonded afterwards
      or, within an epoch, the abandoned are replaced by the promoted; the validators whose time
      has come are unbonded or gone; the updates it returns lead from the old last powers to the
      new ones, and mature undelegations are paid. */
  lemma EndBlockKeeps(st: Store, ctx: Context, endOfEpoch: bool)
    requires ctx.Valid() && Inv(st, ctx)
    ensures
      var r := EndBlock(st, ctx, endOfEpoch);
      && r.Ok? && Inv(r.value.0, ctx)
      && Ends(st, r.value.0, ctx, endOfEpoch)
      && (forall a :: IsBonded(r.value.0, a) <==> Seated(st, ctx, endOfEpoch, a))
      && Applied(st.lastPowers, r.value.1) == r.value.0.lastPowers && ExactDiff(st.lastPowers, r.value.1)
      && r.value.0.abandoned == []
      && (forall t :: t in r.value.0.queue ==> t > ctx.now)
      && PaysDue(st, r.value.0, ctx)
  {
    hide Inv, EndOfSet, UnbondAllMature, CompleteLoop, MatureKeys, Applied, ExactDiff, SameMerits, PaysDue, UndelegationsOk,
      Reseats, Ends, Mature, Seated, IsBonded;
    EndOfSetKeeps(st, ctx, endOfEpoch);
    var s := EndOfSet(st, ctx, endOfEpoch).value.0;
    UnbondAllMatureKeeps(s, ctx);
    var m := UnbondAllMature(s, ctx).value;
    CompleteLoopPays(m, ctx, MatureKeys(m, ctx));
    UndelegationsOf(m, ctx);
    var r := CompleteLoop(m, MatureKeys(m, ctx));
    PaysDueNow(st, m, r, ctx);
    ReseatsEnds(st, s, m, r, ctx, endOfEpoch);
    EndsBonded(st, s, r, ctx, endOfEpoch);
  }

  lemma UndelegationsOf(st: Store, ctx: Context)
    requires ctx.Valid() && Inv(st, ctx)
    ensures UndelegationsOk(st)
  {
    hide ValidatorsOk, SharesOk, DelegatorsOk, UndelegationsOk, PoolsOk;
  }
}
