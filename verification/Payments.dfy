/** Who is paid what by distribution, per account and denomination. */
module Payments {
  import opened EvmTypes
  import opened Coins
  import opened Distribution
  import opened Conservation
  import opened DistributionRuns

  /** The whole coins in an amount. */
  function Whole(n: nat): nat {
    n / ONE * ONE
  }

  /** A validator's commission in one denomination. */
  function Owed(st: State, v: ValAddress, d: Denom): nat {
    Amount(Commission(st.commissions, v), d)
  }

  /** What an account holds of a denomination. */
  function Holds(st: State, a: AccAddress, d: Denom): nat {
    Amount(Balance(st, a), d)
  }

  /** a is the address a validator has set to be paid at, its own when it has set none. */
  predicate PaidAt(st: State, v: ValAddress, a: AccAddress) {
    if v in st.withdrawAddrs then a == st.withdrawAddrs[v] else a == v
  }

  /** There is a whole coin of some denomination in a commission. */
  ghost predicate Payable(st: State, v: ValAddress) {
    exists d :: Owed(st, v, d) >= ONE
  }

  // ---------- Sending ----------

  /** One account gains what the module account loses, and nothing else changes. */
  lemma SendPaysAt(st: State, to: AccAddress, amount: Coins, accepted: bool, a: AccAddress, d: Denom)
    ensures Send(st, to, amount, accepted).Some? <==> accepted && Covered(amount, st.moduleCoins)
    ensures Send(st, to, amount, accepted).Some? ==>
              var r := Send(st, to, amount, accepted).value;
              && Holds(r, a, d) == Holds(st, a, d) + (if a == to then Amount(amount, d) else 0)
              && Amount(r.moduleCoins, d) == Amount(st.moduleCoins, d) - Amount(amount, d)
              && r == st.(moduleCoins := r.moduleCoins, balances := r.balances)
  {
    hide Add, SafeSub, Covered;
  }

  lemma TruncateIs(c: Coins, d: Denom)
    ensures Amount(Truncate(c).0, d) == Whole(Amount(c, d)) && Amount(Truncate(c).1, d) == Amount(c, d) % ONE
  {
  }

  /** The whole part of a commission is empty exactly when no denomination has a whole coin. */
  lemma WholePart(st: State, v: ValAddress)
    ensures Truncate(Commission(st.commissions, v)).0 == NONE <==> !Payable(st, v)
  {
    var c := Commission(st.commissions, v);
    var whole := Truncate(c).0;
    if whole != NONE {
      var d :| d in whole;
      assert Amount(whole, d) > 0;
      TruncateIs(c, d);
      assert Owed(st, v, d) >= ONE;
    }
    if Payable(st, v) {
      var d :| Owed(st, v, d) >= ONE;
      TruncateIs(c, d);
      assert Amount(whole, d) > 0;
    }
  }

  lemma WithdrawAddrIs(st: State, v: ValAddress, a: AccAddress)
    ensures a == WithdrawAddr(st, v) <==> PaidAt(st, v, a)
  {
  }

  // ---------- Commissions ----------

  /** A withdrawal succeeds exactly when there is a commission and, if it has a whole coin, the bank
      accepts.  The validator's address gains exactly the whole coins, the validator keeps exactly
      the fractions, and no other account, commission or pool changes. */
  lemma WithdrawPaysAt(st: State, v: ValAddress, accepted: bool, a: AccAddress, w: ValAddress, d: Denom)
    requires Inv(st)
    ensures WithdrawCommission(st, v, accepted).Some? <==>
            Commission(st.commissions, v) != NONE && (accepted || !Payable(st, v))
    ensures WithdrawCommission(st, v, accepted).Some? ==>
              var r := WithdrawCommission(st, v, accepted).value;
              && Holds(r, a, d) == Holds(st, a, d) + (if PaidAt(st, v, a) then Whole(Owed(st, v, d)) else 0)
              && Owed(r, w, d) == (if w == v then Owed(st, w, d) % ONE else Owed(st, w, d))
              && Amount(r.moduleCoins, d) == Amount(st.moduleCoins, d) - Whole(Owed(st, v, d))
              && r == st.(commissions := r.commissions, moduleCoins := r.moduleCoins, balances := r.balances)
  {
    hide Send, Truncate, Inv, Whole, Payable;
    var accum := Commission(st.commissions, v);
    CommissionCovered(st, v);
    WholePart(st, v);
    if accum != NONE {
      var (whole, remainder) := Truncate(accum);
      var st1 := st.(commissions := st.commissions[v := remainder]);
      TruncateIs(accum, d);
      WithdrawAddrIs(st, v, a);
      SendPaysAt(st1, WithdrawAddr(st1, v), whole, accepted, a, d);
    }
  }

  /** Removal pays the same, the fractions go to the community pool, and the record goes. */
  lemma RemovePaysAt(st: State, v: ValAddress, accepted: bool, a: AccAddress, d: Denom)
    requires Inv(st)
    ensures SettleRemoved(st, v, accepted).Ok? <==> accepted || !Payable(st, v)
    ensures SettleRemoved(st, v, accepted).Ok? ==>
              var r := SettleRemoved(st, v, accepted).value;
              && Holds(r, a, d) == Holds(st, a, d) + (if PaidAt(st, v, a) then Whole(Owed(st, v, d)) else 0)
              && Amount(r.communityPool, d) == Amount(st.communityPool, d) + Owed(st, v, d) % ONE
              && Amount(r.moduleCoins, d) == Amount(st.moduleCoins, d) - Whole(Owed(st, v, d))
              && r.commissions == st.commissions - {v}
              && r == st.(commissions := r.commissions, communityPool := r.communityPool, moduleCoins := r.moduleCoins, balances := r.balances)
  {
    hide Send, Truncate, Inv, Whole, Payable, Add, Covered, Amount, Commission, WithdrawAddr, PaidAt;
    var accum := Commission(st.commissions, v);
    CommissionCovered(st, v);
    WholePart(st, v);
    var (whole, remainder) := Truncate(accum);
    var st1 := st.(communityPool := Add(st.communityPool, remainder));
    TruncateIs(accum, d);
    WithdrawAddrIs(st, v, a);
    SameAddr(st, st1, v);
    NothingOf(d);
    SendPaysAt(st1, WithdrawAddr(st1, v), whole, accepted, a, d);
  }

  lemma NothingOf(d: Denom)
    ensures Amount(NONE, d) == 0
  {
  }

  lemma SameAddr(st: State, r: State, v: ValAddress)
    requires r.withdrawAddrs == st.withdrawAddrs
    ensures WithdrawAddr(r, v) == WithdrawAddr(st, v)
  {
  }

  // ---------- The community pool ----------

  /** A pool spend pays exactly the amount, to its recipient, from the pool. */
  lemma SpendPaysAt(st: State, amount: Coins, to: AccAddress, accepted: bool, a: AccAddress, d: Denom)
    requires Inv(st)
    ensures SpendPool(st, amount, to, accepted).Some? <==> accepted && Covered(amount, st.communityPool)
    ensures SpendPool(st, amount, to, accepted).Some? ==>
              var r := SpendPool(st, amount, to, accepted).value;
              && Holds(r, a, d) == Holds(st, a, d) + (if a == to then Amount(amount, d) else 0)
              && Amount(r.communityPool, d) == Amount(st.communityPool, d) - Amount(amount, d)
              && Amount(r.moduleCoins, d) == Amount(st.moduleCoins, d) - Amount(amount, d)
              && r == st.(communityPool := r.communityPool, moduleCoins := r.moduleCoins, balances := r.balances)
  {
    hide Send, Inv, Covered;
    PoolBacked(st, amount);
    SendPaysAt(st, to, amount, accepted, a, d);
  }

  /** A proposal fails exactly for a blacklisted recipient, beyond the pool, and when refused. */
  lemma ProposalFails(st: State, amount: Coins, to: AccAddress, accepted: bool)
    requires Inv(st)
    ensures SpendProposal(st, amount, to, accepted).None? <==>
            to in st.blacklist || !accepted || !Covered(amount, st.communityPool)
    ensures SpendProposal(st, amount, to, accepted).Some? ==>
              SpendProposal(st, amount, to, accepted) == SpendPool(st, amount, to, accepted)
  {
    hide Inv, SpendPool, Covered;
    SpendPaysAt(st, amount, to, accepted, to, "");
  }

  // ---------- Allocation ----------

  /** The fees are collected without a panic and split between validators and the pool. */
  predicate Splits(st: State, power: int, votes: seq<ValAddress>) {
    st.feeCollector != NONE && power != 0 && Divides(st, votes)
  }

  /** What an allocation leaves in the pool before passing it on: the old pool, and the fees that
      are on no commission. */
  ghost function Passed(st: State, r: State, d: Denom): int {
    Amount(st.communityPool, d) + Amount(st.feeCollector, d)
    + CommissionTotal(st.commissions, d) - CommissionTotal(r.commissions, d)
  }

  /** An allocation that splits the fees raises each commission by its reward and, if the bank
      accepts, pays the whole pool to the community address; no other account is paid. */
  lemma AllocatePaysAt(st: State, power: int, votes: seq<ValAddress>, tax: nat, accepted: bool, a: AccAddress, v: ValAddress, d: Denom)
    requires tax <= ONE && Inv(st) && NoRepeats(votes) && Splits(st, power, votes)
    ensures
      var r := AllocateTokens(st, power, votes, tax, accepted);
      && r.Ok?
      && Owed(r.value, v, d) == Owed(st, v, d) + Reward(st, votes, tax, v, d)
      && Holds(r.value, a, d) == Holds(st, a, d) + (if accepted && a == st.communityAddress then Passed(st, r.value, d) else 0)
      && Amount(r.value.communityPool, d) == (if accepted then 0 else Passed(st, r.value, d))
      && r.value.feeCollector == NONE
      && r.value == st.(feeCollector := NONE, commissions := r.value.commissions, communityPool := r.value.communityPool,
                        moduleCoins := r.value.moduleCoins, balances := r.value.balances)
  {
    hide AllocateTokens, Allocated, Divides, SpendPool, CommissionTotal, Inv, Reward;
    var x := Allocated(st, votes, tax);
    AllocatePanics(st, power, votes, tax, accepted);
    AllocatedKeeps(st, votes, tax);
    AllocatedExactly(st, votes, tax, d);
    InvDistinct(st);
    AllocatedReward(st, votes, tax, v, d);
    CoversItself(x.communityPool);
    SpendPaysAt(x, x.communityPool, x.communityAddress, accepted, a, d);
  }

  lemma InvDistinct(st: State)
    requires Inv(st)
    ensures DistinctValidators(st.validators)
  {
  }

  lemma CoversItself(c: Coins)
    ensures Covered(c, c)
  {
  }

  /** Without fees nothing happens; without voting power the fees go to the pool. */
  lemma AllocateIdles(st: State, power: int, votes: seq<ValAddress>, tax: nat, accepted: bool, d: Denom)
    requires tax <= ONE && (st.feeCollector == NONE || power == 0)
    ensures
      var r := AllocateTokens(st, power, votes, tax, accepted);
      && r.Ok? && r.value.feeCollector == NONE
      && Amount(r.value.communityPool, d) == Amount(st.communityPool, d) + Amount(st.feeCollector, d)
      && Amount(r.value.moduleCoins, d) == Amount(st.moduleCoins, d) + Amount(st.feeCollector, d)
      && r.value == st.(feeCollector := NONE, communityPool := r.value.communityPool, moduleCoins := r.value.moduleCoins)
  {
    hide AllocateByEqual, AllocateByShares, SpendPool;
  }

  // ---------- The same for all accounts and denominations ----------

  /** to gains exactly the amount, and the module account loses it. */
  ghost predicate Sends(st: State, r: State, to: AccAddress, amount: Coins) {
    && (forall a, d :: Holds(r, a, d) == Holds(st, a, d) + if a == to then Amount(amount, d) else 0)
    && (forall d :: Amount(r.moduleCoins, d) == Amount(st.moduleCoins, d) - Amount(amount, d))
    && r == st.(moduleCoins := r.moduleCoins, communityPool := r.communityPool, commissions := r.commissions, balances := r.balances)
  }

  /** The address of v gains exactly the whole coins of its commission. */
  ghost predicate PaysOut(st: State, r: State, v: ValAddress) {
    && (forall a, d :: Holds(r, a, d) == Holds(st, a, d) + if PaidAt(st, v, a) then Whole(Owed(st, v, d)) else 0)
    && (forall d :: Amount(r.moduleCoins, d) == Amount(st.moduleCoins, d) - Whole(Owed(st, v, d)))
    && r == st.(moduleCoins := r.moduleCoins, communityPool := r.communityPool, commissions := r.commissions, balances := r.balances)
  }

  lemma SendPays(st: State, to: AccAddress, amount: Coins, accepted: bool)
    ensures Send(st, to, amount, accepted).Some? <==> accepted && Covered(amount, st.moduleCoins)
    ensures Send(st, to, amount, accepted).Some? ==>
              var r := Send(st, to, amount, accepted).value;
              Sends(st, r, to, amount) && r.communityPool == st.communityPool && r.commissions == st.commissions
  {
    hide Send, Holds, Covered;
    SendPaysAt(st, to, amount, accepted, to, "");
    if Send(st, to, amount, accepted).Some? {
      var r := Send(st, to, amount, accepted).value;
      forall a, d
        ensures Holds(r, a, d) == Holds(st, a, d) + if a == to then Amount(amount, d) else 0
      {
        SendPaysAt(st, to, amount, accepted, a, d);
      }
      forall d
        ensures Amount(r.moduleCoins, d) == Amount(st.moduleCoins, d) - Amount(amount, d)
      {
        SendPaysAt(st, to, amount, accepted, to, d);
      }
    }
  }

  /** A withdrawal pays out, and of the commission exactly the fractions stay; every other
      commission and the pool stay as they are. */
  lemma WithdrawPays(st: State, v: ValAddress, accepted: bool)
    requires Inv(st)
    ensures WithdrawCommission(st, v, accepted).Some? <==>
            Commission(st.commissions, v) != NONE && (accepted || !Payable(st, v))
    ensures WithdrawCommission(st, v, accepted).Some? ==>
              var r := WithdrawCommission(st, v, accepted).value;
              && PaysOut(st, r, v) && r.communityPool == st.communityPool
              && (forall w, d :: Owed(r, w, d) == if w == v then Owed(st, w, d) % ONE else Owed(st, w, d))
  {
    hide WithdrawCommission, Holds, Inv, Payable, Owed, PaidAt, Whole;
    WithdrawPaysAt(st, v, accepted, v, v, "");
    if WithdrawCommission(st, v, accepted).Some? {
      var r := WithdrawCommission(st, v, accepted).value;
      forall a, d
        ensures Holds(r, a, d) == Holds(st, a, d) + if PaidAt(st, v, a) then Whole(Owed(st, v, d)) else 0
      {
        WithdrawPaysAt(st, v, accepted, a, v, d);
      }
      forall w, d
        ensures Owed(r, w, d) == if w == v then Owed(st, w, d) % ONE else Owed(st, w, d)
      {
        WithdrawPaysAt(st, v, accepted, v, w, d);
      }
      forall d
        ensures Amount(r.moduleCoins, d) == Amount(st.moduleCoins, d) - Whole(Owed(st, v, d))
      {
        WithdrawPaysAt(st, v, accepted, v, v, d);
      }
    }
  }

  /** A removal pays out, the fractions go to the community pool, and only that record goes. */
  lemma RemovePays(st: State, v: ValAddress, accepted: bool)
    requires Inv(st)
    ensures SettleRemoved(st, v, accepted).Ok? <==> accepted || !Payable(st, v)
    ensures SettleRemoved(st, v, accepted).Ok? ==>
              var r := SettleRemoved(st, v, accepted).value;
              && PaysOut(st, r, v) && r.commissions == st.commissions - {v}
              && (forall d :: Amount(r.communityPool, d) == Amount(st.communityPool, d) + Owed(st, v, d) % ONE)
  {
    hide SettleRemoved, Holds, Inv, Payable, Owed, PaidAt, Whole;
    RemovePaysAt(st, v, accepted, v, "");
    if SettleRemoved(st, v, accepted).Ok? {
      var r := SettleRemoved(st, v, accepted).value;
      forall a, d
        ensures Holds(r, a, d) == Holds(st, a, d) + if PaidAt(st, v, a) then Whole(Owed(st, v, d)) else 0
      {
        RemovePaysAt(st, v, accepted, a, d);
      }
      forall d
        ensures Amount(r.communityPool, d) == Amount(st.communityPool, d) + Owed(st, v, d) % ONE
        ensures Amount(r.moduleCoins, d) == Amount(st.moduleCoins, d) - Whole(Owed(st, v, d))
      {
        RemovePaysAt(st, v, accepted, v, d);
      }
    }
  }

  /** A pool spend pays its recipient exactly the amount from the pool. */
  lemma SpendPays(st: State, amount: Coins, to: AccAddress, accepted: bool)
    requires Inv(st)
    ensures SpendPool(st, amount, to, accepted).Some? <==> accepted && Covered(amount, st.communityPool)
    ensures SpendPool(st, amount, to, accepted).Some? ==>
              var r := SpendPool(st, amount, to, accepted).value;
              && Sends(st, r, to, amount) && r.commissions == st.commissions
              && (forall d :: Amount(r.communityPool, d) == Amount(st.communityPool, d) - Amount(amount, d))
  {
    hide SpendPool, Holds, Covered, Inv;
    SpendPaysAt(st, amount, to, accepted, to, "");
    if SpendPool(st, amount, to, accepted).Some? {
      var r := SpendPool(st, amount, to, accepted).value;
      forall a, d
        ensures Holds(r, a, d) == Holds(st, a, d) + if a == to then Amount(amount, d) else 0
      {
        SpendPaysAt(st, amount, to, accepted, a, d);
      }
      forall d
        ensures Amount(r.moduleCoins, d) == Amount(st.moduleCoins, d) - Amount(amount, d)
        ensures Amount(r.communityPool, d) == Amount(st.communityPool, d) - Amount(amount, d)
      {
        SpendPaysAt(st, amount, to, accepted, to, d);
      }
    }
  }

  /** The rewards are on the commissions; the rest of the fees and the old pool are with the
      community address or, if the bank refuses, in the pool. */
  ghost predicate Allocates(st: State, r: State, votes: seq<ValAddress>, tax: nat, accepted: bool)
    requires tax <= ONE && Divides(st, votes)
  {
    && (forall v, d :: Owed(r, v, d) == Owed(st, v, d) + Reward(st, votes, tax, v, d))
    && (forall a, d :: Holds(r, a, d) == Holds(st, a, d) + if accepted && a == st.communityAddress then Passed(st, r, d) else 0)
    && (forall d :: Amount(r.communityPool, d) == if accepted then 0 else Passed(st, r, d))
  }

  lemma AllocatePays(st: State, power: int, votes: seq<ValAddress>, tax: nat, accepted: bool)
    requires tax <= ONE && Inv(st) && NoRepeats(votes) && Splits(st, power, votes)
    ensures
      var r := AllocateTokens(st, power, votes, tax, accepted);
      && r.Ok? && Allocates(st, r.value, votes, tax, accepted)
      && r.value == st.(feeCollector := NONE, commissions := r.value.commissions, communityPool := r.value.communityPool,
                        moduleCoins := r.value.moduleCoins, balances := r.value.balances)
  {
    hide AllocateTokens, Holds, Owed, Inv, Reward, Passed, Divides, NoRepeats;
    AllocatePaysAt(st, power, votes, tax, accepted, 0, 0, "");
    var r := AllocateTokens(st, power, votes, tax, accepted).value;
    forall v, d
      ensures Owed(r, v, d) == Owed(st, v, d) + Reward(st, votes, tax, v, d)
    {
      AllocatePaysAt(st, power, votes, tax, accepted, 0, v, d);
    }
    forall a, d
      ensures Holds(r, a, d) == Holds(st, a, d) + if accepted && a == st.communityAddress then Passed(st, r, d) else 0
    {
      AllocatePaysAt(st, power, votes, tax, accepted, a, 0, d);
    }
    forall d
      ensures Amount(r.communityPool, d) == if accepted then 0 else Passed(st, r, d)
    {
      AllocatePaysAt(st, power, votes, tax, accepted, 0, 0, d);
    }
  }

  // ---------- Every step and every run ----------

  /** What an account is paid by a step, in terms of the state before it. */
  ghost function Paid(st: State, op: Op, a: AccAddress, d: Denom): int {
    match op
    case Withdraw(v, accepted) => if accepted && PaidAt(st, v, a) then Whole(Owed(st, v, d)) else 0
    case RemoveOp(v, accepted) =>
      if accepted && HasValidator(st.validators, v) && PaidAt(st, v, a) then Whole(Owed(st, v, d)) else 0
    case Spend(amount, to, accepted) =>
      if accepted && to !in st.blacklist && Covered(amount, st.communityPool) && a == to then Amount(amount, d) else 0
    case Allocate(power, votes, tax, accepted) =>
      if accepted && tax <= ONE && a == st.communityAddress && Splits(st, power, votes)
      then Amount(Allocated(st, votes, tax).communityPool, d) else 0
    case _ => 0
  }

  /** Every step pays each account exactly that. */
  lemma StepPays(st: State, op: Op, a: AccAddress, d: Denom)
    requires Inv(st) && Step(st, op).Ok?
    ensures Holds(Step(st, op).value, a, d) == Holds(st, a, d) + Paid(st, op, a, d)
  {
    hide Inv, AllocateTokens, SpendPool, WithdrawCommission, SettleRemoved, Whole, Payable, Add, Allocated, PaidAt,
      Covered, Owed, IndexOf, InitializeValidator;
    match op
    case CollectFees(fees) =>
    case Allocate(power, votes, tax, accepted) =>
      if tax <= ONE {
        AllocatesPaid(st, power, votes, tax, accepted, a, d);
      }
    case Withdraw(v, accepted) =>
      WithdrawPaysAt(st, v, accepted, a, v, d);
      NothingWhole(st, v, d);
    case Spend(amount, to, accepted) =>
      ProposalFails(st, amount, to, accepted);
      SpendPaysAt(st, amount, to, accepted, a, d);
    case Create(x) =>
      CreatedHolds(st, x, a, d);
    case RemoveOp(v, accepted) =>
      RemovedPaid(st, v, accepted, a, d);
    case Restake(vals) =>
  }

  lemma CreatedHolds(st: State, x: Validator, a: AccAddress, d: Denom)
    ensures Holds(InitializeValidator(st.(validators := st.validators + [x]), x.address), a, d) == Holds(st, a, d)
  {
  }

  /** A commission without a whole coin pays nothing. */
  lemma NothingWhole(st: State, v: ValAddress, d: Denom)
    ensures !Payable(st, v) || Commission(st.commissions, v) == NONE ==> Whole(Owed(st, v, d)) == 0
  {
    assert !Payable(st, v) ==> Owed(st, v, d) < ONE;
  }

  lemma RemovedPaid(st: State, v: ValAddress, accepted: bool, a: AccAddress, d: Denom)
    requires Inv(st) && Step(st, RemoveOp(v, accepted)).Ok?
    ensures Holds(Step(st, RemoveOp(v, accepted)).value, a, d) == Holds(st, a, d) + Paid(st, RemoveOp(v, accepted), a, d)
  {
    hide Inv, SettleRemoved, Whole, Payable, Owed, PaidAt;
    SettleFrame(st, v, accepted, DistributionRuns.Without(st.validators, v));
    RemovePaysAt(st, v, accepted, a, d);
    NothingWhole(st, v, d);
    var i := IndexOf(st.validators, v);
    assert i < |st.validators| ==> HasValidator(st.validators, v);
  }

  lemma AllocatesPaid(st: State, power: int, votes: seq<ValAddress>, tax: nat, accepted: bool, a: AccAddress, d: Denom)
    requires tax <= ONE && Inv(st) && AllocateTokens(st, power, votes, tax, accepted).Ok?
    ensures Holds(AllocateTokens(st, power, votes, tax, accepted).value, a, d) ==
            Holds(st, a, d) + Paid(st, Allocate(power, votes, tax, accepted), a, d)
  {
    hide AllocateTokens, Allocated, Divides, SpendPool, Inv;
    AllocatePanics(st, power, votes, tax, accepted);
    if Splits(st, power, votes) {
      var x := Allocated(st, votes, tax);
      AllocatedKeeps(st, votes, tax);
      CoversItself(x.communityPool);
      SpendPaysAt(x, x.communityPool, x.communityAddress, accepted, a, d);
    } else {
      AllocateIdles(st, power, votes, tax, accepted, d);
    }
  }

  /** What an account is paid in a run. */
  ghost function PaidBy(st: State, ops: seq<Op>, a: AccAddress, d: Denom): int
    decreases |ops|
  {
    if ops == [] || Step(st, ops[0]).Panic? then 0
    else Paid(st, ops[0], a, d) + PaidBy(Step(st, ops[0]).value, ops[1..], a, d)
  }

  /** Over every run each account gains exactly what it is paid. */
  lemma {:induction false} RunPays(st: State, ops: seq<Op>, a: AccAddress, d: Denom)
    requires Inv(st) && RunOps(st, ops).Ok?
    ensures Holds(RunOps(st, ops).value, a, d) == Holds(st, a, d) + PaidBy(st, ops, a, d)
    decreases |ops|
  {
    hide Inv, Step, Holds, Paid;
    if ops != [] {
      StepKeeps(st, ops[0], d);
      StepPays(st, ops[0], a, d);
      RunPays(Step(st, ops[0]).value, ops[1..], a, d);
    }
  }
}
