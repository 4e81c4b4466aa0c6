/** Staking and distribution together: the staking keeper calls the distribution hooks when it
    creates and removes validators, and distribution reads the staking validators. */
module Chain {
  import opened EvmTypes
  import opened Coins
  import opened StakingStore
  import opened StakingInvariants
  import opened ValidatorMessages
  import opened ValidatorSet
  import opened EpochElections
  import opened EndBlocks
  import S = StakingRuns
  import D = Distribution
  import C = Conservation
  import R = DistributionRuns
  import P = Payments

  datatype Chain = Chain(staking: Store, dist: D.State)

  // ---------- What distribution sees of staking ----------

  function Seen(v: Validator, a: Address): D.Validator {
    D.Validator(a, v.jailed, if v.shares >= 0 then v.shares else 0)
  }

  /** The validators of the staking store in address order. */
  function Mirror(st: Store): seq<D.Validator> {
    var keys := SortedAddresses(st.validators.Keys);
    seq(|keys|, i requires 0 <= i < |keys| => if keys[i] in st.validators then Seen(st.validators[keys[i]], keys[i]) else D.Validator(keys[i], true, 0))
  }

  // ---------- Hooks ----------

  /** AfterValidatorCreated for each new validator. */
  function InitializeAll(d: D.State, created: seq<Address>): D.State
    decreases |created|
  {
    if created == [] then d else InitializeAll(D.InitializeValidator(d, created[0]), created[1..])
  }

  /** AfterValidatorRemoved for each removed validator; the bank refuses payouts to some. */
  function SettleAll(d: D.State, removed: seq<Address>, refused: set<Address>): Outcome<D.State>
    decreases |removed|
  {
    if removed == [] then Ok(d)
    else
      var r := D.SettleRemoved(d, removed[0], removed[0] !in refused);
      if r.Panic? then Panic else SettleAll(r.value, removed[1..], refused)
  }

  function Created(st: Store, r: Store): seq<Address> {
    SortedAddresses(r.validators.Keys - st.validators.Keys)
  }

  function Removed(st: Store, r: Store): seq<Address> {
    SortedAddresses(st.validators.Keys - r.validators.Keys)
  }

  /** The chain after staking has gone from its store to r and called the hooks. */
  function Hooked(c: Chain, r: Store, refused: set<Address>): Outcome<Chain> {
    var d := SettleAll(InitializeAll(c.dist, Created(c.staking, r)), Removed(c.staking, r), refused);
    if d.Panic? then Panic else Ok(Chain(r, d.value.(validators := Mirror(r))))
  }

  datatype Step =
    | Deliver(ctx: Context, message: S.Message, refused: set<Address>)
    | EndOfBlock(ctx: Context, endOfEpoch: bool, refused: set<Address>)
    | Fees(ctx: Context, op: R.Op)

  /** A message whose hook panics is rolled back; an end-block whose hook panics halts the chain,
      as does an allocation that divides by zero. */
  function Do(c: Chain, step: Step): Outcome<Chain>
    requires step.ctx.Valid()
  {
    match step
    case Deliver(ctx, m, refused) =>
      var r := S.Handle(c.staking, ctx, m);
      if r.None? || Hooked(c, r.value, refused).Panic? then Ok(c) else Hooked(c, r.value, refused)
    case EndOfBlock(ctx, endOfEpoch, refused) =>
      var r := EndBlock(c.staking, ctx, endOfEpoch);
      if r.Panic? then Panic else Hooked(c, r.value.0, refused)
    case Fees(_, op) =>
      if op.Create? || op.RemoveOp? || op.Restake? then Ok(c)
      else
        var r := R.Step(c.dist, op);
        if r.Panic? then Panic else Ok(c.(dist := r.value))
  }

  // ---------- The invariant ----------

  /** Distribution's books, whatever list of validators they are read with. */
  ghost predicate Books(d: D.State) {
    && Normal(d.feeCollector) && Normal(d.moduleCoins) && Normal(d.communityPool) && C.AllNormal(d.commissions)
    && (forall x :: R.Backed(d, x))
  }

  /** Both invariants hold, and there is a commission record exactly for each validator. */
  ghost predicate Inv(c: Chain, ctx: Context)
    requires ctx.Valid()
  {
    && StakingInvariants.Inv(c.staking, ctx) && Books(c.dist)
    && c.dist.validators == Mirror(c.staking)
    && c.dist.commissions.Keys == c.staking.validators.Keys
  }

  lemma MirrorMeans(st: Store)
    ensures R.DistinctValidators(Mirror(st))
    ensures forall a :: R.HasValidator(Mirror(st), a) <==> a in st.validators
  {
    hide SortedAddresses;
    var keys := SortedAddresses(st.validators.Keys);
    var m := Mirror(st);
    SortedDistinct(st.validators.Keys);
    assert forall i :: 0 <= i < |m| ==> m[i].address == keys[i];
    forall a
      ensures R.HasValidator(m, a) <==> a in st.validators
    {
      if a in st.validators {
        assert a in keys;
        var i :| 0 <= i < |keys| && keys[i] == a;
        assert m[i].address == a;
      }
    }
  }

  lemma MirrorSees(st: Store, x: D.Validator)
    requires x in Mirror(st)
    ensures x.address in st.validators && x == Seen(st.validators[x.address], x.address)
  {
    hide SortedAddresses;
    var keys := SortedAddresses(st.validators.Keys);
    var i :| 0 <= i < |Mirror(st)| && Mirror(st)[i] == x;
    assert keys[i] in keys;
  }

  /** With a list that covers the records, the books are distribution's own invariant. */
  lemma BooksInv(d: D.State, st: Store)
    requires Books(d) && d.commissions.Keys <= st.validators.Keys
    ensures R.Inv(d.(validators := Mirror(st)))
  {
    hide Mirror, R.HasValidator, C.CommissionTotal;
    MirrorMeans(st);
    assert forall x :: R.Backed(d, x) ==> R.Backed(d.(validators := Mirror(st)), x);
  }

  lemma InvBooks(d: D.State)
    requires R.Inv(d)
    ensures Books(d) && forall v :: v in d.commissions ==> R.HasValidator(d.validators, v)
  {
  }

  /** Some list of validators for a set of records. */
  function Covering(keys: set<Address>): seq<D.Validator> {
    var list := SortedAddresses(keys);
    seq(|list|, i requires 0 <= i < |list| => D.Validator(list[i], true, 0))
  }

  lemma CoveringInv(d: D.State)
    requires Books(d)
    ensures R.Inv(d.(validators := Covering(d.commissions.Keys)))
  {
    hide SortedAddresses, C.CommissionTotal;
    var list := SortedAddresses(d.commissions.Keys);
    var m := Covering(d.commissions.Keys);
    SortedDistinct(d.commissions.Keys);
    forall v | v in d.commissions
      ensures R.HasValidator(m, v)
    {
      assert v in list;
      var i :| 0 <= i < |list| && list[i] == v;
      assert m[i].address == v;
    }
    assert forall x :: R.Backed(d, x) ==> R.Backed(d.(validators := m), x);
  }

  // ---------- Creating ----------

  lemma InitializeKeeps(d: D.State, v: Address, x: Denom)
    requires Books(d) && v !in d.commissions
    ensures Books(D.InitializeValidator(d, v)) && R.Supply(D.InitializeValidator(d, v), x) == R.Supply(d, x)
  {
    hide C.CommissionTotal, R.BalanceTotal;
    var r := D.InitializeValidator(d, v);
    forall y
      ensures R.Backed(r, y)
    {
      assert R.Backed(d, y);
      C.CommissionUpdate(d.commissions, v, NONE, y);
    }
  }

  lemma {:induction false} InitializeAllKeeps(d: D.State, created: seq<Address>, x: Denom)
    requires Books(d) && NoRepeats(created) && (forall v :: v in created ==> v !in d.commissions)
    ensures
      var r := InitializeAll(d, created);
      && Books(r) && R.Supply(r, x) == R.Supply(d, x)
      && r.commissions.Keys == d.commissions.Keys + (set v | v in created)
      && (forall v :: v in d.commissions ==> r.commissions[v] == d.commissions[v])
    decreases |created|
  {
    hide Books, R.Supply;
    if created == [] {
      assert (set v | v in created) == {};
    } else {
      InitializeKeeps(d, created[0], x);
      var s := D.InitializeValidator(d, created[0]);
      assert forall v :: v in created[1..] ==> v in created && v != created[0];
      InitializeAllKeeps(s, created[1..], x);
      assert (set v | v in created) == {created[0]} + (set v | v in created[1..]);
    }
  }

  // ---------- Removing ----------

  /** The whole coins a validator's commission pays out. */
  function Payout(d: D.State, v: Address): Coins {
    Truncate(D.Commission(d.commissions, v)).0
  }

  /** A removal panics exactly when the bank refuses a payout that is not empty. */
  lemma SettleKeeps(d: D.State, v: Address, accepted: bool, x: Denom)
    requires Books(d)
    ensures
      var r := D.SettleRemoved(d, v, accepted);
      && (r.Panic? <==> !accepted && Payout(d, v) != NONE)
      && (r.Ok? ==>
            && Books(r.value) && R.Supply(r.value, x) == R.Supply(d, x)
            && r.value.commissions == d.commissions - {v})
  {
    hide Covering, D.SettleRemoved, C.CommissionTotal, R.BalanceTotal, R.Inv, Truncate, R.Backed, R.Supply, C.AllNormal;
    var vals := Covering(d.commissions.Keys);
    CoveringInv(d);
    R.SettleFrame(d, v, accepted, vals);
    SettlePanics(d, vals, v, accepted);
    if D.SettleRemoved(d, v, accepted).Ok? {
      var r := D.SettleRemoved(d, v, accepted).value;
      R.RemoveKeeps(d.(validators := vals), v, accepted, x);
      SettledBooks(d, r, r.(validators := vals), v, accepted, vals);
      SupplyFrame(d, vals, x);
      SupplyFrame(r, vals, x);
    }
  }

  lemma SupplyFrame(d: D.State, vals: seq<D.Validator>, x: Denom)
    ensures R.Supply(d.(validators := vals), x) == R.Supply(d, x)
  {
  }

  lemma SettledBooks(d: D.State, r: D.State, s: D.State, v: Address, accepted: bool, vals: seq<D.Validator>)
    requires Books(d) && R.Inv(d.(validators := vals)) && s == r.(validators := vals)
    requires D.SettleRemoved(d.(validators := vals), v, accepted) == Ok(s)
    ensures Books(r) && r.commissions == d.commissions - {v}
  {
    hide D.SettleRemoved, C.CommissionTotal, R.BalanceTotal, R.Inv, R.Supply;
    var e := d.(validators := vals);
    R.RemoveKeeps(e, v, accepted, "");
    forall y
      ensures R.Backed(r, y)
    {
      R.RemoveKeeps(e, v, accepted, y);
      assert R.Backed(s, y);
    }
  }

  lemma SettlePanics(d: D.State, vals: seq<D.Validator>, v: Address, accepted: bool)
    requires R.Inv(d.(validators := vals))
    ensures D.SettleRemoved(d, v, accepted).Panic? <==> !accepted && Payout(d, v) != NONE
  {
    hide R.Inv, Truncate, Add;
    R.CommissionCovered(d.(validators := vals), v);
  }

  /** The bank refuses a payout that is not empty. */
  ghost predicate Refuses(d: D.State, removed: seq<Address>, refused: set<Address>) {
    exists v :: v in removed && v in refused && Payout(d, v) != NONE
  }

  lemma RefusesFirst(d: D.State, s: D.State, removed: seq<Address>, refused: set<Address>)
    requires removed != [] && NoRepeats(removed) && s.commissions == d.commissions - {removed[0]}
    ensures Refuses(d, removed, refused) <==>
            (removed[0] in refused && Payout(d, removed[0]) != NONE) || Refuses(s, removed[1..], refused)
  {
    hide Truncate;
    assert forall w :: w in removed <==> w == removed[0] || w in removed[1..];
    assert forall w :: w in removed[1..] ==> w != removed[0] && Payout(s, w) == Payout(d, w);
  }

  lemma {:induction false} SettleAllKeeps(d: D.State, removed: seq<Address>, refused: set<Address>, x: Denom)
    requires Books(d) && NoRepeats(removed)
    ensures
      var r := SettleAll(d, removed, refused);
      && (r.Panic? <==> Refuses(d, removed, refused))
      && (r.Ok? ==>
            && Books(r.value) && R.Supply(r.value, x) == R.Supply(d, x)
            && r.value.commissions == d.commissions - (set v | v in removed))
    decreases |removed|
  {
    hide Books, R.Supply, D.SettleRemoved, Payout, Refuses;
    if removed == [] {
      NoneRefused(d, refused);
      assert d.commissions - (set v | v in removed) == d.commissions;
    } else {
      var v := removed[0];
      SettleKeeps(d, v, v !in refused, x);
      var s := D.SettleRemoved(d, v, v !in refused);
      if s.Ok? {
        RefusesFirst(d, s.value, removed, refused);
        SettleAllKeeps(s.value, removed[1..], refused, x);
        assert (set w | w in removed) == {v} + (set w | w in removed[1..]);
      } else {
        RefusesFirst(d, d.(commissions := d.commissions - {v}), removed, refused);
      }
    }
  }

  lemma NoneRefused(d: D.State, refused: set<Address>)
    ensures !Refuses(d, [], refused)
  {
  }

  // ---------- Hooks keep the chain's invariant ----------

  /** The hooks of a change from the staking store to r fail exactly when the bank refuses a payout
      of a removed validator; otherwise the chain's invariant holds and coins are conserved. */
  lemma HookedKeeps(c: Chain, r: Store, ctx: Context, refused: set<Address>, x: Denom)
    requires ctx.Valid() && Inv(c, ctx) && StakingInvariants.Inv(r, ctx)
    ensures
      var h := Hooked(c, r, refused);
      && (h.Panic? <==> Refuses(c.dist, Removed(c.staking, r), refused))
      && (h.Ok? ==> h.value.staking == r && Inv(h.value, ctx) && R.Supply(h.value.dist, x) == R.Supply(c.dist, x))
  {
    hide StakingInvariants.Inv, Books, R.Supply, SettleAll, InitializeAll, Mirror, Created, Removed, Payout, Refuses;
    var created, removed := Created(c.staking, r), Removed(c.staking, r);
    ChangeLists(c.staking, r);
    InitializeAllKeeps(c.dist, created, x);
    var d := InitializeAll(c.dist, created);
    RefusesSame(c.dist, d, removed, refused, c.staking.validators.Keys);
    SettleAllKeeps(d, removed, refused, x);
    if SettleAll(d, removed, refused).Ok? {
      var e := SettleAll(d, removed, refused).value;
      ChangedKeys(c.staking.validators.Keys, r.validators.Keys, created, removed);
      BooksFrame(e, Mirror(r));
      SupplyFrame(e, Mirror(r), x);
    }
  }

  // ---------- What the removed validators are paid ----------

  /** The whole coins that removing these validators pays to an account. */
  function Payouts(d: D.State, removed: seq<Address>, a: Address, x: Denom): nat
    decreases |removed|
  {
    if removed == [] then 0
    else (if P.PaidAt(d, removed[0], a) then P.Whole(P.Owed(d, removed[0], x)) else 0) + Payouts(d, removed[1..], a, x)
  }

  /** The fractions that removing them leaves to the community pool. */
  function Fractions(d: D.State, removed: seq<Address>, x: Denom): nat
    decreases |removed|
  {
    if removed == [] then 0 else P.Owed(d, removed[0], x) % ONE + Fractions(d, removed[1..], x)
  }

  lemma {:induction false} PayoutsSame(d: D.State, e: D.State, removed: seq<Address>, a: Address, x: Denom)
    requires e.withdrawAddrs == d.withdrawAddrs && forall v :: v in removed ==> P.Owed(e, v, x) == P.Owed(d, v, x)
    ensures Payouts(e, removed, a, x) == Payouts(d, removed, a, x) && Fractions(e, removed, x) == Fractions(d, removed, x)
    decreases |removed|
  {
    hide P.Owed, P.Whole;
    if removed != [] {
      PayoutsSame(d, e, removed[1..], a, x);
    }
  }

  lemma SettlePays(d: D.State, v: Address, accepted: bool, a: Address, x: Denom)
    requires Books(d) && D.SettleRemoved(d, v, accepted).Ok?
    ensures
      var r := D.SettleRemoved(d, v, accepted).value;
      && P.Holds(r, a, x) == P.Holds(d, a, x) + (if P.PaidAt(d, v, a) then P.Whole(P.Owed(d, v, x)) else 0)
      && Amount(r.communityPool, x) == Amount(d.communityPool, x) + P.Owed(d, v, x) % ONE
      && r.withdrawAddrs == d.withdrawAddrs && r.commissions == d.commissions - {v}
  {
    hide Covering, D.SettleRemoved, R.Inv, Books, P.Whole;
    var vals := Covering(d.commissions.Keys);
    CoveringInv(d);
    R.SettleFrame(d, v, accepted, vals);
    P.RemovePaysAt(d.(validators := vals), v, accepted, a, x);
  }

  lemma {:induction false} SettleAllPays(d: D.State, removed: seq<Address>, refused: set<Address>, a: Address, x: Denom)
    requires Books(d) && NoRepeats(removed) && SettleAll(d, removed, refused).Ok?
    ensures
      var r := SettleAll(d, removed, refused).value;
      && P.Holds(r, a, x) == P.Holds(d, a, x) + Payouts(d, removed, a, x)
      && Amount(r.communityPool, x) == Amount(d.communityPool, x) + Fractions(d, removed, x)
    decreases |removed|
  {
    hide Books, D.SettleRemoved, P.Whole, P.Holds, Refuses;
    if removed != [] {
      var v := removed[0];
      SettlePays(d, v, v !in refused, a, x);
      SettleKeeps(d, v, v !in refused, x);
      var s := D.SettleRemoved(d, v, v !in refused).value;
      SettleAllPays(s, removed[1..], refused, a, x);
      assert forall w :: w in removed[1..] ==> w != v;
      PayoutsSame(d, s, removed[1..], a, x);
    }
  }

  lemma {:induction false} InitializeAllPays(d: D.State, created: seq<Address>)
    ensures
      var r := InitializeAll(d, created);
      r.balances == d.balances && r.communityPool == d.communityPool && r.withdrawAddrs == d.withdrawAddrs
    decreases |created|
  {
    if created != [] {
      InitializeAllPays(D.InitializeValidator(d, created[0]), created[1..]);
    }
  }

  /** Hooks that succeed pay each account exactly the whole coins of the removed validators whose
      address it is, and leave exactly their fractions to the community pool. */
  lemma HookedPays(c: Chain, r: Store, ctx: Context, refused: set<Address>, a: Address, x: Denom)
    requires ctx.Valid() && Inv(c, ctx) && StakingInvariants.Inv(r, ctx) && Hooked(c, r, refused).Ok?
    ensures
      var h := Hooked(c, r, refused).value.dist;
      var removed := Removed(c.staking, r);
      && P.Holds(h, a, x) == P.Holds(c.dist, a, x) + Payouts(c.dist, removed, a, x)
      && Amount(h.communityPool, x) == Amount(c.dist.communityPool, x) + Fractions(c.dist, removed, x)
  {
    hide StakingInvariants.Inv, Books, SettleAll, InitializeAll, Mirror, Created, Removed, Payouts, Fractions;
    var created, removed := Created(c.staking, r), Removed(c.staking, r);
    ChangeLists(c.staking, r);
    InitializeAllKeeps(c.dist, created, x);
    InitializeAllPays(c.dist, created);
    var d := InitializeAll(c.dist, created);
    SettleAllPays(d, removed, refused, a, x);
    assert forall v :: v in removed ==> P.Owed(d, v, x) == P.Owed(c.dist, v, x);
    PayoutsSame(c.dist, d, removed, a, x);
  }

  lemma ChangeLists(st: Store, r: Store)
    ensures NoRepeats(Created(st, r)) && NoRepeats(Removed(st, r))
    ensures forall v :: v in Created(st, r) <==> v in r.validators && v !in st.validators
    ensures forall v :: v in Removed(st, r) <==> v in st.validators && v !in r.validators
  {
    hide SortedAddresses;
    SortedDistinct(r.validators.Keys - st.validators.Keys);
    SortedDistinct(st.validators.Keys - r.validators.Keys);
  }

  lemma ChangedKeys(before: set<Address>, after: set<Address>, created: seq<Address>, removed: seq<Address>)
    requires forall v :: v in created <==> v in after && v !in before
    requires forall v :: v in removed <==> v in before && v !in after
    ensures before + (set v | v in created) - (set v | v in removed) == after
  {
  }

  lemma RefusesSame(d: D.State, e: D.State, removed: seq<Address>, refused: set<Address>, keys: set<Address>)
    requires d.commissions.Keys == keys && keys <= e.commissions.Keys && (forall v :: v in removed ==> v in keys)
    requires forall v :: v in keys ==> e.commissions[v] == d.commissions[v]
    ensures Refuses(e, removed, refused) <==> Refuses(d, removed, refused)
  {
    hide Truncate;
    assert forall v :: v in removed ==> Payout(e, v) == Payout(d, v);
  }

  lemma BooksFrame(d: D.State, vals: seq<D.Validator>)
    requires Books(d)
    ensures Books(d.(validators := vals))
  {
    hide C.CommissionTotal;
    assert forall y :: R.Backed(d, y) ==> R.Backed(d.(validators := vals), y);
  }

  // ---------- Steps ----------

  ghost predicate Allowed(c: Chain, step: Step, reduction: nat) {
    && step.ctx.Valid() && step.ctx.powerReduction == reduction
    && (step.Deliver? ==> S.Sound(c.staking, step.message))
  }

  /** What makes a step halt the chain: a refused payout at the end of a block, or an allocation
      without a known unjailed voter. */
  ghost predicate Halts(c: Chain, step: Step)
    requires step.ctx.Valid()
  {
    || (step.EndOfBlock? && EndBlock(c.staking, step.ctx, step.endOfEpoch).Ok?
        && Refuses(c.dist, Removed(c.staking, EndBlock(c.staking, step.ctx, step.endOfEpoch).value.0), step.refused))
    || (step.Fees? && step.op.Allocate? && step.op.tax <= ONE && c.dist.feeCollector != NONE && step.op.power != 0
        && D.EligibleVoters(Mirror(c.staking), step.op.votes) == [])
  }

  /** Unjailed validators always have shares, so the division by their total is safe. */
  lemma SharesDivide(st: Store, ctx: Context)
    requires ctx.Valid() && StakingInvariants.Inv(st, ctx)
    ensures D.Unjailed(Mirror(st)) == [] || D.TotalShares(D.Unjailed(Mirror(st))) > 0
  {
    hide StakingInvariants.Inv, Mirror, R.HasValidator;
    var u := D.Unjailed(Mirror(st));
    if u != [] {
      var x := u[|u| - 1];
      MirrorMeans(st);
      R.UnjailedMeans(Mirror(st), x);
      MirrorSees(st, x);
      SharesOf(st, ctx);
      OperatorOf(st, ctx, x.address);
      UnjailedShares(st, x.address);
    }
  }

  lemma UnjailedShares(st: Store, a: Address)
    requires SharesOk(st) && a in st.validators && !st.validators[a].jailed
    ensures st.validators[a].shares >= ONE
  {
    hide SharesOk, ShareSum;
    TotalOf(st, a);
  }

  /** Distribution steps halt only without a known unjailed voter. */
  lemma FeesKeep(c: Chain, ctx: Context, op: R.Op, x: Denom)
    requires ctx.Valid() && Inv(c, ctx)
    ensures Do(c, Fees(ctx, op)).Panic? <==> Halts(c, Fees(ctx, op))
    ensures Do(c, Fees(ctx, op)).Ok? ==> Inv(Do(c, Fees(ctx, op)).value, ctx)
  {
    hide StakingInvariants.Inv, Books, R.Supply, R.Inv, Mirror, R.HasValidator, R.Step;
    BooksInv(c.dist, c.staking);
    assert c.dist.(validators := Mirror(c.staking)) == c.dist;
    SharesDivide(c.staking, ctx);
    if !(op.Create? || op.RemoveOp? || op.Restake?) {
      StepPanics(c.dist, op);
    }
    if !(op.Create? || op.RemoveOp? || op.Restake?) && R.Step(c.dist, op).Ok? {
      var r := R.Step(c.dist, op).value;
      R.StepKeeps(c.dist, op, x);
      InvBooks(r);
      StepRecords(c.dist, op);
      MirrorMeans(c.staking);
      assert r.commissions.Keys == c.staking.validators.Keys;
    }
  }

  lemma StepPanics(d: D.State, op: R.Op)
    requires R.Inv(d) && !(op.Create? || op.RemoveOp? || op.Restake?)
    requires D.Unjailed(d.validators) == [] || D.TotalShares(D.Unjailed(d.validators)) > 0
    ensures R.Step(d, op).Panic? <==>
            op.Allocate? && op.tax <= ONE && d.feeCollector != NONE && op.power != 0 && D.EligibleVoters(d.validators, op.votes) == []
  {
    hide R.Inv, D.AllocateTokens, D.Unjailed, D.TotalShares, D.EligibleVoters;
    if op.Allocate? && op.tax <= ONE {
      R.AllocatePanics(d, op.power, op.votes, op.tax, op.accepted);
    }
  }

  /** Distribution steps never drop a commission record. */
  lemma StepRecords(d: D.State, op: R.Op)
    requires R.Inv(d) && !(op.Create? || op.RemoveOp? || op.Restake?) && R.Step(d, op).Ok?
    ensures d.commissions.Keys <= R.Step(d, op).value.commissions.Keys && R.Step(d, op).value.validators == d.validators
  {
    if op.Withdraw? {
      R.WithdrawKeeps(d, op.v, op.accepted, "");
    } else if op.Allocate? && op.tax <= ONE {
      AllocateRecords(d, op.power, op.votes, op.tax, op.accepted);
    }
  }

  lemma AllocateRecords(d: D.State, power: int, votes: seq<Address>, tax: nat, accepted: bool)
    requires tax <= ONE && D.AllocateTokens(d, power, votes, tax, accepted).Ok?
    ensures
      var r := D.AllocateTokens(d, power, votes, tax, accepted).value;
      d.commissions.Keys <= r.commissions.Keys && r.validators == d.validators
  {
    hide D.AllocateByEqual, D.AllocateByShares, Add, SafeSub, MulTruncate;
    var fees := d.feeCollector;
    if fees != NONE && power != 0 {
      var d1 := d.(feeCollector := NONE, moduleCoins := Add(d.moduleCoins, fees));
      var toVals := D.ValidatorFees(fees, tax);
      var byEqual, byVote := MulTruncate(toVals, D.VAL_PORTION), MulTruncate(toVals, D.VOTE_PORTION);
      C.EqualConserves(d1, byEqual, votes, "");
      var e := D.AllocateByEqual(d1, byEqual, votes).value;
      C.SharesConserve(d1.(commissions := e.0), byVote, "");
    }
  }

  /** The staking store after a step: that of staking alone, unless a refused payout of a removed
      validator rolls the message back. */
  ghost predicate Staked(c: Chain, step: Step, st: Store)
    requires step.ctx.Valid()
  {
    match step
    case Deliver(ctx, m, refused) =>
      var r := S.Handle(c.staking, ctx, m);
      st == if r.None? || Refuses(c.dist, Removed(c.staking, r.value), refused) then c.staking else r.value
    case EndOfBlock(ctx, endOfEpoch, _) => EndBlock(c.staking, ctx, endOfEpoch).Ok? && st == EndBlock(c.staking, ctx, endOfEpoch).value.0
    case Fees(_, _) => st == c.staking
  }

  /** A step halts the chain exactly as Halts says, and otherwise keeps the chain's invariant: the
      books balance and commission records sit on exactly the existing validators. */
  lemma StepKeeps(c: Chain, step: Step)
    requires step.ctx.Valid() && Inv(c, step.ctx) && Allowed(c, step, step.ctx.powerReduction)
    ensures Do(c, step).Panic? <==> Halts(c, step)
    ensures Do(c, step).Ok? ==> Inv(Do(c, step).value, step.ctx) && Staked(c, step, Do(c, step).value.staking)
  {
    hide StakingInvariants.Inv, Books, S.Handle, EndBlock, Hooked, Refuses, S.Sound, R.Step, Mirror;
    match step
    case Deliver(ctx, m, refused) =>
      var r := S.Handle(c.staking, ctx, m);
      if r.Some? {
        S.MessageKeeps(c.staking, ctx, m);
        HookedKeeps(c, r.value, ctx, refused, "");
      }
    case EndOfBlock(ctx, endOfEpoch, refused) =>
      EndBlockKeeps(c.staking, ctx, endOfEpoch);
      HookedKeeps(c, EndBlock(c.staking, ctx, endOfEpoch).value.0, ctx, refused, "");
    case Fees(ctx, op) =>
      FeesKeep(c, ctx, op, "");
  }

  function Run(c: Chain, steps: seq<Step>): Outcome<Chain>
    requires forall i :: 0 <= i < |steps| ==> steps[i].ctx.Valid()
    decreases |steps|
  {
    if steps == [] then Ok(c)
    else
      var r := Do(c, steps[0]);
      if r.Panic? then Panic else Run(r.value, steps[1..])
  }

  ghost predicate AllowedRun(c: Chain, steps: seq<Step>, reduction: nat)
    decreases |steps|
  {
    steps == [] ||
    (Allowed(c, steps[0], reduction) &&
     (Do(c, steps[0]).Ok? ==> AllowedRun(Do(c, steps[0]).value, steps[1..], reduction)))
  }

  /** Over every run of the two modules together the chain's invariant holds. */
  lemma {:induction false} RunKeeps(c: Chain, steps: seq<Step>, ctx: Context)
    requires ctx.Valid() && Inv(c, ctx) && AllowedRun(c, steps, ctx.powerReduction)
    requires forall i :: 0 <= i < |steps| ==> steps[i].ctx.Valid()
    ensures Run(c, steps).Ok? ==> Inv(Run(c, steps).value, ctx)
    decreases |steps|
  {
    hide Inv, Do;
    if steps != [] {
      Reframe(c, ctx, steps[0].ctx);
      StepKeeps(c, steps[0]);
      if Do(c, steps[0]).Ok? {
        Reframe(Do(c, steps[0]).value, steps[0].ctx, ctx);
        RunKeeps(Do(c, steps[0]).value, steps[1..], ctx);
      }
    }
  }

  lemma Reframe(c: Chain, ctx: Context, other: Context)
    requires ctx.Valid() && other.Valid() && ctx.powerReduction == other.powerReduction && Inv(c, ctx)
    ensures Inv(c, other)
  {
    hide StakingInvariants.Inv, Books, Mirror;
    S.InvContext(c.staking, ctx, other);
  }

  /** The two modules before the first message: any balances, nothing staked, nothing owed. */
  lemma GenesisInv(balances: map<Address, int>, d: D.State, ctx: Context)
    requires ctx.Valid() && d.validators == [] && d.commissions == map[]
    requires d.feeCollector == NONE && d.moduleCoins == NONE && d.communityPool == NONE
    ensures Inv(Chain(S.Genesis(balances), d), ctx)
  {
    hide StakingInvariants.Inv, Books, Mirror;
    S.GenesisInv(balances, ctx);
    NothingMirrored(S.Genesis(balances));
    NothingOwed(d);
  }

  lemma NothingMirrored(st: Store)
    requires st.validators == map[]
    ensures Mirror(st) == []
  {
    hide SortedAddresses;
    assert |st.validators.Keys| == 0;
  }

  lemma NothingOwed(d: D.State)
    requires d.commissions == map[] && d.feeCollector == NONE && d.moduleCoins == NONE && d.communityPool == NONE
    ensures Books(d)
  {
    forall y
      ensures R.Backed(d, y)
    {
      assert C.CommissionAmounts(d.commissions, y) == map[];
    }
  }
}
