/** Whole runs of the distribution module keep its invariants. */
module DistributionRuns {
  import opened EvmTypes
  import opened Coins
  import opened Sums
  import opened Distribution
  import opened Conservation

  // ---------- One allocation ----------

  lemma PortionsFit(f: nat, tax: nat)
    requires tax <= ONE
    ensures var a := f * (ONE - tax) / ONE;
            a * VAL_PORTION / ONE + a * VOTE_PORTION / ONE <= a <= f
  {
    MulMonotone(f, ONE - tax, ONE);
  }

  lemma CommunityFits(fees: Coins, tax: nat)
    requires tax <= ONE
    ensures var toVals := ValidatorFees(fees, tax);
            SafeSub(fees, Add(MulTruncate(toVals, VAL_PORTION), MulTruncate(toVals, VOTE_PORTION))).Some?
  {
    var toVals := ValidatorFees(fees, tax);
    var both := Add(MulTruncate(toVals, VAL_PORTION), MulTruncate(toVals, VOTE_PORTION));
    forall d | d in both
      ensures both[d] <= Amount(fees, d)
    {
      PortionsFit(Amount(fees, d), tax);
      assert both[d] == Amount(both, d);
    }
  }

  /** The two divisions by zero, the only panics of AllocateTokens. */
  predicate Divides(st: State, votes: seq<ValAddress>) {
    EligibleVoters(st.validators, votes) != []
    && (Unjailed(st.validators) == [] || TotalShares(Unjailed(st.validators)) > 0)
  }

  /** The state before the community pool is passed on: all fees are on the commissions or in
      the pool. */
  function Allocated(st: State, votes: seq<ValAddress>, tax: nat): State
    requires tax <= ONE && st.feeCollector != NONE && Divides(st, votes)
  {
    var fees := st.feeCollector;
    var st1 := st.(feeCollector := NONE, moduleCoins := Add(st.moduleCoins, fees));
    var toVals := ValidatorFees(fees, tax);
    var byEqual, byVote := MulTruncate(toVals, VAL_PORTION), MulTruncate(toVals, VOTE_PORTION);
    CommunityFits(fees, tax);
    EqualConserves(st1, byEqual, votes, "");
    var e := AllocateByEqual(st1, byEqual, votes).value;
    SharesConserve(st1.(commissions := e.0), byVote, "");
    var s := AllocateByShares(st1.(commissions := e.0), byVote).value;
    var gain := Add(SafeSub(fees, Add(byEqual, byVote)).value, Add(e.1, s.1));
    st1.(commissions := s.0, communityPool := Add(st.communityPool, gain))
  }

  /** AllocateTokens panics exactly on a division by zero: no voter is known and unjailed, or the
      unjailed validators have no shares at all. */
  lemma AllocatePanics(st: State, power: int, votes: seq<ValAddress>, tax: nat, accepted: bool)
    requires tax <= ONE
    ensures AllocateTokens(st, power, votes, tax, accepted).Panic? <==>
            st.feeCollector != NONE && power != 0 && !Divides(st, votes)
    ensures st.feeCollector != NONE && power != 0 && Divides(st, votes) ==>
              var a := Allocated(st, votes, tax);
              var spent := SpendPool(a, a.communityPool, a.communityAddress, accepted);
              AllocateTokens(st, power, votes, tax, accepted) == Ok(if spent.None? then a else spent.value)
  {
    hide Unjailed, TotalShares, EligibleVoters, AllocateByEqual, AllocateByShares, SpendPool, Add, MulTruncate, Covered, Amount;
    var fees := st.feeCollector;
    if fees != NONE && power != 0 {
      var st1 := st.(feeCollector := NONE, moduleCoins := Add(st.moduleCoins, fees));
      var toVals := ValidatorFees(fees, tax);
      var byEqual, byVote := MulTruncate(toVals, VAL_PORTION), MulTruncate(toVals, VOTE_PORTION);
      CommunityFits(fees, tax);
      EqualConserves(st1, byEqual, votes, "");
      var e := AllocateByEqual(st1, byEqual, votes);
      if e.Ok? {
        SharesConserve(st1.(commissions := e.value.0), byVote, "");
      }
    }
  }

  /** Validator rewards and the community part add up to the collected fees exactly. */
  lemma AllocatedExactly(st: State, votes: seq<ValAddress>, tax: nat, d: Denom)
    requires tax <= ONE && st.feeCollector != NONE && Divides(st, votes)
    ensures var a := Allocated(st, votes, tax);
            CommissionTotal(a.commissions, d) + Amount(a.communityPool, d) ==
            CommissionTotal(st.commissions, d) + Amount(st.communityPool, d) + Amount(st.feeCollector, d)
  {
    hide Unjailed, TotalShares, EligibleVoters, AllocateByEqual, AllocateByShares, CommissionTotal, Add, SafeSub, MulTruncate, Amount;
    var fees := st.feeCollector;
    var st1 := st.(feeCollector := NONE, moduleCoins := Add(st.moduleCoins, fees));
    var toVals := ValidatorFees(fees, tax);
    var byEqual, byVote := MulTruncate(toVals, VAL_PORTION), MulTruncate(toVals, VOTE_PORTION);
    CommunityFits(fees, tax);
    EqualConserves(st1, byEqual, votes, d);
    var e := AllocateByEqual(st1, byEqual, votes).value;
    SharesConserve(st1.(commissions := e.0), byVote, d);
    var s := AllocateByShares(st1.(commissions := e.0), byVote).value;
  }

  // ---------- Who gets what ----------

  lemma {:induction false} EligibleMeans(vals: seq<Validator>, votes: seq<ValAddress>, v: ValAddress)
    ensures v in EligibleVoters(vals, votes) <==> v in votes && Find(vals, v).Some? && !Find(vals, v).value.jailed
  {
    hide Find;
    if votes != [] {
      var n := |votes| - 1;
      EligibleMeans(vals, votes[..n], v);
      assert votes == votes[..n] + [votes[n]];
    }
  }

  lemma {:induction false} EligibleDistinct(vals: seq<Validator>, votes: seq<ValAddress>)
    requires NoRepeats(votes)
    ensures NoRepeats(EligibleVoters(vals, votes))
  {
    hide Find;
    if votes != [] {
      var n := |votes| - 1;
      EligibleDistinct(vals, votes[..n]);
      EligibleMeans(vals, votes[..n], votes[n]);
    }
  }

  ghost predicate DistinctValidators(vals: seq<Validator>) {
    forall i, j :: 0 <= i < j < |vals| ==> vals[i].address != vals[j].address
  }

  /** The unjailed validators are exactly those, each once. */
  lemma {:induction false} UnjailedMeans(vals: seq<Validator>, x: Validator)
    requires DistinctValidators(vals)
    ensures x in Unjailed(vals) <==> x in vals && !x.jailed
    ensures DistinctValidators(Unjailed(vals))
  {
    if vals != [] {
      var n := |vals| - 1;
      UnjailedMeans(vals[..n], x);
      assert vals == vals[..n] + [vals[n]];
      forall i | 0 <= i < |Unjailed(vals[..n])|
        ensures Unjailed(vals[..n])[i].address != vals[n].address
      {
        UnjailedMeans(vals[..n], Unjailed(vals[..n])[i]);
      }
    }
  }

  lemma {:induction false} FindMeans(vals: seq<Validator>, x: Validator)
    requires DistinctValidators(vals) && x in vals
    ensures Find(vals, x.address) == Some(x)
  {
    if vals[0] != x {
      assert x in vals[1..];
      FindMeans(vals[1..], x);
      assert exists i :: 1 <= i < |vals| && vals[i] == x;
    }
  }

  lemma {:induction false} FindIn(vals: seq<Validator>, v: ValAddress)
    ensures Find(vals, v).Some? ==> Find(vals, v).value in vals && Find(vals, v).value.address == v
    ensures Find(vals, v).None? ==> forall i :: 0 <= i < |vals| ==> vals[i].address != v
  {
    if vals != [] && vals[0].address != v {
      FindIn(vals[1..], v);
      assert forall i :: 1 <= i < |vals| ==> vals[i] == vals[1..][i - 1];
    }
  }

  /** The reward of one validator: an equal part of 20% for an eligible voter, and the part of
      80% in proportion to shares for an unjailed validator; each factor truncated. */
  function Reward(st: State, votes: seq<ValAddress>, tax: nat, v: ValAddress, d: Denom): nat
    requires tax <= ONE && Divides(st, votes)
  {
    var base := Part(Amount(st.feeCollector, d), ONE - tax);
    var n := |EligibleVoters(st.validators, votes)|;
    var total := TotalShares(Unjailed(st.validators));
    var x := Find(st.validators, v);
    if x.None? || x.value.jailed then 0
    else
      (if v in votes then Part(Part(base, VAL_PORTION), QuoTruncate(ONE, n * ONE)) else 0)
      + (if total == 0 then 0 else Part(Part(base, VOTE_PORTION), QuoTruncate(x.value.shares, total)))
  }

  /** A fraction of an amount, truncated. */
  function Part(a: nat, f: nat): nat {
    a * f / ONE
  }

  lemma EqualReward(st: State, rewards: Coins, votes: seq<ValAddress>, v: ValAddress, d: Denom)
    requires NoRepeats(votes) && EligibleVoters(st.validators, votes) != []
    ensures var vs := EligibleVoters(st.validators, votes);
            var r := AllocateByEqual(st, rewards, votes);
            && r.Ok?
            && Amount(Commission(r.value.0, v), d) ==
               Amount(Commission(st.commissions, v), d)
               + if v in vs then Amount(rewards, d) * QuoTruncate(ONE, |vs| * ONE) / ONE else 0
  {
    hide CreditAll, Remaining, QuoTruncate, Commission;
    var vs := EligibleVoters(st.validators, votes);
    EligibleDistinct(st.validators, votes);
    EligibleMeans(st.validators, votes, v);
    EqualConserves(st, rewards, votes, d);
    CreditAllAt(st.commissions, vs, EqualFractions(|vs|), rewards, v, d);
    if v in vs {
      var i :| 0 <= i < |vs| && vs[i] == v;
      assert EqualFractions(|vs|)[i] == QuoTruncate(ONE, |vs| * ONE);
    }
  }

  lemma SharesReward(st: State, rewards: Coins, v: ValAddress, d: Denom)
    requires DistinctValidators(st.validators)
    requires Unjailed(st.validators) == [] || TotalShares(Unjailed(st.validators)) > 0
    ensures var x := Find(st.validators, v);
            var total := TotalShares(Unjailed(st.validators));
            var r := AllocateByShares(st, rewards);
            && r.Ok?
            && Amount(Commission(r.value.0, v), d) ==
               Amount(Commission(st.commissions, v), d)
               + if x.None? || x.value.jailed || total == 0 then 0 else Amount(rewards, d) * QuoTruncate(x.value.shares, total) / ONE
  {
    hide CreditAll, Remaining, QuoTruncate, Commission, TotalShares, Unjailed, Find;
    var vals := Unjailed(st.validators);
    var x := Find(st.validators, v);
    FindIn(st.validators, v);
    SharesConserve(st, rewards, d);
    if x.Some? {
      UnjailedMeans(st.validators, x.value);
    }
    if vals == [] {
      NoUnjailedShares(st.validators);
    } else {
      UnjailedMeans(st.validators, vals[0]);
      CreditAllAt(st.commissions, Addresses(vals), ShareFractions(vals, TotalShares(vals)), rewards, v, d);
      if v in Addresses(vals) {
        var i :| 0 <= i < |vals| && vals[i].address == v;
        UnjailedMeans(st.validators, vals[i]);
        FindMeans(st.validators, vals[i]);
      } else {
        assert forall i :: 0 <= i < |vals| ==> Addresses(vals)[i] == vals[i].address;
      }
    }
  }

  lemma NoUnjailedShares(vals: seq<Validator>)
    requires Unjailed(vals) == []
    ensures TotalShares(Unjailed(vals)) == 0
  {
  }

  /** Every validator's commission grows by its reward and by nothing else. */
  lemma AllocatedReward(st: State, votes: seq<ValAddress>, tax: nat, v: ValAddress, d: Denom)
    requires tax <= ONE && st.feeCollector != NONE && Divides(st, votes)
    requires NoRepeats(votes) && DistinctValidators(st.validators)
    ensures Amount(Commission(Allocated(st, votes, tax).commissions, v), d) ==
            Amount(Commission(st.commissions, v), d) + Reward(st, votes, tax, v, d)
  {
    hide Unjailed, TotalShares, EligibleVoters, AllocateByEqual, AllocateByShares, Commission, Add, SafeSub, Amount, QuoTruncate, Find;
    var fees := st.feeCollector;
    var st1 := st.(feeCollector := NONE, moduleCoins := Add(st.moduleCoins, fees));
    var toVals := ValidatorFees(fees, tax);
    var byEqual, byVote := MulTruncate(toVals, VAL_PORTION), MulTruncate(toVals, VOTE_PORTION);
    CommunityFits(fees, tax);
    EligibleMeans(st.validators, votes, v);
    EqualReward(st1, byEqual, votes, v, d);
    var e := AllocateByEqual(st1, byEqual, votes).value;
    SharesReward(st1.(commissions := e.0), byVote, v, d);
  }

  // ---------- The invariant over runs ----------

  ghost predicate HasValidator(vals: seq<Validator>, v: ValAddress) {
    exists i :: 0 <= i < |vals| && vals[i].address == v
  }

  /** ModuleAccountInvariant, together with what it rests on: commission records belong to
      existing validators. */
  ghost predicate Inv(st: State) {
    && DistinctValidators(st.validators)
    && Normal(st.feeCollector) && Normal(st.moduleCoins) && Normal(st.communityPool) && AllNormal(st.commissions)
    && (forall v :: v in st.commissions ==> HasValidator(st.validators, v))
    && (forall d :: Backed(st, d))
  }

  ghost predicate Backed(st: State, d: Denom) {
    Amount(st.moduleCoins, d) == Amount(st.communityPool, d) + CommissionTotal(st.commissions, d)
  }

  datatype Op =
    | CollectFees(fees: Coins)
    | Allocate(power: int, votes: seq<ValAddress>, tax: nat, accepted: bool)
    | Withdraw(v: ValAddress, accepted: bool)
    | Spend(amount: Coins, to: AccAddress, accepted: bool)
    | Create(validator: Validator)
    | RemoveOp(v: ValAddress, accepted: bool)
    | Restake(validators: seq<Validator>)

  /** One step: a failing transaction changes nothing.  Staking creates validators under fresh
      addresses, removes existing ones, and otherwise changes only shares and jailing. */
  function Step(st: State, op: Op): Outcome<State> {
    match op
    case CollectFees(fees) =>
      Ok(if Normal(fees) then st.(feeCollector := Add(st.feeCollector, fees)) else st)
    case Allocate(power, votes, tax, accepted) =>
      if tax <= ONE then AllocateTokens(st, power, votes, tax, accepted) else Ok(st)
    case Withdraw(v, accepted) =>
      var r := WithdrawCommission(st, v, accepted);
      Ok(if r.None? then st else r.value)
    case Spend(amount, to, accepted) =>
      var r := SpendProposal(st, amount, to, accepted);
      Ok(if r.None? then st else r.value)
    case Create(x) =>
      if IndexOf(st.validators, x.address) < |st.validators| then Ok(st)
      else Ok(InitializeValidator(st.(validators := st.validators + [x]), x.address))
    case RemoveOp(v, accepted) =>
      if IndexOf(st.validators, v) == |st.validators| then Ok(st)
      else SettleRemoved(st.(validators := Without(st.validators, v)), v, accepted)
    case Restake(vals) =>
      Ok(if Addresses(vals) == Addresses(st.validators) then st.(validators := vals) else st)
  }

  function IndexOf(vals: seq<Validator>, v: ValAddress): (i: nat)
    ensures i <= |vals|
    ensures i < |vals| ==> vals[i].address == v
    ensures i == |vals| ==> !HasValidator(vals, v)
  {
    if vals == [] then 0
    else if vals[0].address == v then 0
    else
      assert forall j :: 1 <= j < |vals| ==> vals[j] == vals[1..][j - 1];
      1 + IndexOf(vals[1..], v)
  }

  function Without(vals: seq<Validator>, v: ValAddress): seq<Validator> {
    var i := IndexOf(vals, v);
    if i == |vals| then vals else vals[..i] + vals[i + 1..]
  }

  lemma WithoutMeans(vals: seq<Validator>, v: ValAddress, w: ValAddress)
    requires DistinctValidators(vals)
    ensures DistinctValidators(Without(vals, v))
    ensures HasValidator(vals, w) && w != v ==> HasValidator(Without(vals, v), w)
  {
    hide IndexOf;
    var i := IndexOf(vals, v);
    var r := Without(vals, v);
    if HasValidator(vals, w) && w != v && i < |vals| {
      var j :| 0 <= j < |vals| && vals[j].address == w;
      assert r[if j < i then j else j - 1] == vals[j];
    }
  }

  /** Sending from the module account. */
  lemma SendKeeps(st: State, to: AccAddress, amount: Coins, accepted: bool, d: Denom)
    ensures Send(st, to, amount, accepted).Some? <==> accepted && Covered(amount, st.moduleCoins)
    ensures Send(st, to, amount, accepted).Some? ==>
              var r := Send(st, to, amount, accepted).value;
              && r == st.(moduleCoins := r.moduleCoins, balances := r.balances)
              && Normal(r.moduleCoins)
              && Amount(r.moduleCoins, d) == Amount(st.moduleCoins, d) - Amount(amount, d)
              && BalanceTotal(r.balances, d) == BalanceTotal(st.balances, d) + Amount(amount, d)
  {
    if Send(st, to, amount, accepted).Some? {
      BalanceUpdate(st.balances, to, Add(Balance(st, to), amount), d);
    }
  }

  ghost function BalanceAmounts(m: map<AccAddress, Coins>, d: Denom): map<AccAddress, int> {
    map v | v in m :: Amount(m[v], d) as int
  }

  ghost function BalanceTotal(m: map<AccAddress, Coins>, d: Denom): int {
    Sum(BalanceAmounts(m, d))
  }

  lemma BalanceUpdate(m: map<AccAddress, Coins>, a: AccAddress, c: Coins, d: Denom)
    ensures BalanceTotal(m[a := c], d) == BalanceTotal(m, d) - (if a in m then Amount(m[a], d) else 0) + Amount(c, d)
  {
    SumUpdate(BalanceAmounts(m, d), a, Amount(c, d));
    assert BalanceAmounts(m[a := c], d) == BalanceAmounts(m, d)[a := Amount(c, d) as int];
  }

  /** All coins there are: collected, held by the module, or paid out. */
  ghost function Supply(st: State, d: Denom): int {
    Amount(st.feeCollector, d) + Amount(st.moduleCoins, d) + BalanceTotal(st.balances, d)
  }

  /** Collected fees are new coins; everything else moves coins around. */
  function Collected(st: State, op: Op, d: Denom): nat {
    if op.CollectFees? && Normal(op.fees) then Amount(op.fees, d) else 0
  }

  /** Creating a validator never overwrites a commission. */
  lemma CreateKeeps(st: State, x: Validator, d: Denom)
    requires Inv(st) && IndexOf(st.validators, x.address) == |st.validators|
    ensures var r := InitializeValidator(st.(validators := st.validators + [x]), x.address);
            && Commission(st.commissions, x.address) == NONE
            && (forall v :: Commission(r.commissions, v) == Commission(st.commissions, v))
            && Supply(r, d) == Supply(st, d) && Backed(r, d)
            && DistinctValidators(r.validators) && AllNormal(r.commissions)
            && (forall v :: v in r.commissions ==> HasValidator(r.validators, v))
  {
    hide CommissionTotal, BalanceTotal, IndexOf;
    var r := InitializeValidator(st.(validators := st.validators + [x]), x.address);
    assert x.address !in st.commissions;
    CommissionUpdate(st.commissions, x.address, NONE, d);
    assert Backed(st, d);
    forall v | v in r.commissions
      ensures HasValidator(r.validators, v)
    {
      ExtendedHas(st.validators, x, v);
    }
  }

  lemma ExtendedHas(vals: seq<Validator>, x: Validator, v: ValAddress)
    requires HasValidator(vals, v) || v == x.address
    ensures HasValidator(vals + [x], v)
  {
    if HasValidator(vals, v) {
      var i :| 0 <= i < |vals| && vals[i].address == v;
      assert (vals + [x])[i].address == v;
    } else {
      assert (vals + [x])[|vals|].address == v;
    }
  }

  /** Every commission can be paid out in full from the module account. */
  lemma CommissionCovered(st: State, v: ValAddress)
    requires Inv(st)
    ensures Covered(Truncate(Commission(st.commissions, v)).0, st.moduleCoins)
  {
    var whole := Truncate(Commission(st.commissions, v)).0;
    forall d | d in whole
      ensures whole[d] <= Amount(st.moduleCoins, d)
    {
      assert Backed(st, d);
      CommissionBound(st.commissions, v, d);
      assert whole[d] == Amount(whole, d);
    }
  }

  lemma WithdrawKeeps(st: State, v: ValAddress, accepted: bool, d: Denom)
    requires Inv(st)
    ensures accepted ==> (WithdrawCommission(st, v, accepted).Some? <==> Commission(st.commissions, v) != NONE)
    ensures WithdrawCommission(st, v, accepted).Some? ==>
              var r := WithdrawCommission(st, v, accepted).value;
              && Supply(r, d) == Supply(st, d) && Backed(r, d)
              && r == st.(commissions := r.commissions, moduleCoins := r.moduleCoins, balances := r.balances)
              && r.commissions.Keys == st.commissions.Keys && AllNormal(r.commissions) && Normal(r.moduleCoins)
  {
    hide CommissionTotal, BalanceTotal, Send, Truncate, Add, SafeSub;
    var accum := Commission(st.commissions, v);
    if accum != NONE {
      var (whole, remainder) := Truncate(accum);
      var st1 := st.(commissions := st.commissions[v := remainder]);
      CommissionUpdate(st.commissions, v, remainder, d);
      CommissionCovered(st, v);
      assert Backed(st, d);
      hide Inv;
      SendKeeps(st1, WithdrawAddr(st1, v), whole, accepted, d);
      assert Amount(whole, d) + Amount(remainder, d) == Amount(accum, d);
    }
  }

  lemma RemoveKeeps(st: State, v: ValAddress, accepted: bool, d: Denom)
    requires Inv(st)
    ensures accepted ==> SettleRemoved(st, v, accepted).Ok?
    ensures SettleRemoved(st, v, accepted).Ok? ==>
              var r := SettleRemoved(st, v, accepted).value;
              && Supply(r, d) == Supply(st, d) && Backed(r, d)
              && r == st.(commissions := r.commissions, moduleCoins := r.moduleCoins, balances := r.balances, communityPool := r.communityPool)
              && r.commissions == st.commissions - {v} && Normal(r.communityPool) && Normal(r.moduleCoins)
  {
    hide CommissionTotal, BalanceTotal, Send, Truncate, Add, SafeSub;
    var (whole, remainder) := Truncate(Commission(st.commissions, v));
    var st1 := st.(communityPool := Add(st.communityPool, remainder));
    CommissionRemove(st.commissions, v, d);
    CommissionCovered(st, v);
    assert Backed(st, d);
    assert Normal(st1.communityPool);
    hide Inv;
    SendKeeps(st1, WithdrawAddr(st1, v), whole, accepted, d);
    assert Amount(whole, d) + Amount(remainder, d) == Amount(Commission(st.commissions, v), d);
  }

  /** A pool spend succeeds exactly when the pool covers it and the bank accepts it. */
  lemma SpendKeeps(st: State, amount: Coins, to: AccAddress, accepted: bool, d: Denom)
    requires Inv(st)
    ensures SpendPool(st, amount, to, accepted).Some? <==> accepted && Covered(amount, st.communityPool)
    ensures SpendPool(st, amount, to, accepted).Some? ==>
              var r := SpendPool(st, amount, to, accepted).value;
              && Supply(r, d) == Supply(st, d) && Backed(r, d)
              && r == st.(communityPool := r.communityPool, moduleCoins := r.moduleCoins, balances := r.balances)
              && Normal(r.communityPool) && Normal(r.moduleCoins)
  {
    hide CommissionTotal, BalanceTotal, Send, Amount, Covered, Normal, HasValidator, DistinctValidators;
    PoolBacked(st, amount);
    assert Backed(st, d);
    hide Inv, SafeSub;
    SendKeeps(st, to, amount, accepted, d);
  }

  /** The module account covers whatever the community pool covers. */
  lemma PoolBacked(st: State, amount: Coins)
    requires Inv(st)
    ensures Covered(amount, st.communityPool) ==> Covered(amount, st.moduleCoins)
  {
    if Covered(amount, st.communityPool) {
      forall e | e in amount
        ensures amount[e] <= Amount(st.moduleCoins, e)
      {
        assert Backed(st, e);
        CommissionBound(st.commissions, 0, e);
      }
    }
  }

  lemma FoundHas(vals: seq<Validator>, v: ValAddress)
    requires Find(vals, v).Some?
    ensures HasValidator(vals, v)
  {
    FindIn(vals, v);
    var i :| 0 <= i < |vals| && vals[i] == Find(vals, v).value;
  }

  /** Only existing validators are credited. */
  lemma AllocatedRecords(st: State, votes: seq<ValAddress>, tax: nat, v: ValAddress)
    requires tax <= ONE && st.feeCollector != NONE && Divides(st, votes) && Inv(st)
    ensures v in Allocated(st, votes, tax).commissions ==> HasValidator(st.validators, v)
    ensures AllNormal(Allocated(st, votes, tax).commissions) && Normal(Allocated(st, votes, tax).communityPool)
  {
    hide Unjailed, TotalShares, EligibleVoters, AllocateByEqual, AllocateByShares, Add, SafeSub, MulTruncate;
    var fees := st.feeCollector;
    var st1 := st.(feeCollector := NONE, moduleCoins := Add(st.moduleCoins, fees));
    var toVals := ValidatorFees(fees, tax);
    var byEqual, byVote := MulTruncate(toVals, VAL_PORTION), MulTruncate(toVals, VOTE_PORTION);
    CommunityFits(fees, tax);
    EqualConserves(st1, byEqual, votes, "");
    var e := AllocateByEqual(st1, byEqual, votes).value;
    SharesConserve(st1.(commissions := e.0), byVote, "");
    EligibleMeans(st.validators, votes, v);
    if v in EligibleVoters(st.validators, votes) {
      FoundHas(st.validators, v);
    }
    var vals := Unjailed(st.validators);
    if v in Addresses(vals) {
      var i :| 0 <= i < |vals| && vals[i].address == v;
      UnjailedMeans(st.validators, vals[i]);
      var j :| 0 <= j < |st.validators| && st.validators[j] == vals[i];
    }
  }

  lemma AllocatedKeeps(st: State, votes: seq<ValAddress>, tax: nat)
    requires tax <= ONE && st.feeCollector != NONE && Divides(st, votes) && Inv(st)
    ensures var a := Allocated(st, votes, tax);
            && Inv(a) && (forall d :: Supply(a, d) == Supply(st, d))
            && a == st.(feeCollector := NONE, moduleCoins := a.moduleCoins, commissions := a.commissions, communityPool := a.communityPool)
  {
    hide Unjailed, TotalShares, EligibleVoters, AllocateByEqual, AllocateByShares, CommissionTotal, BalanceTotal, Add, SafeSub, MulTruncate;
    var a := Allocated(st, votes, tax);
    assert a.moduleCoins == Add(st.moduleCoins, st.feeCollector);
    forall d
      ensures Backed(a, d)
    {
      assert Backed(st, d);
      AllocatedExactly(st, votes, tax, d);
    }
    AllocatedRecords(st, votes, tax, 0);
    forall v | v in a.commissions
      ensures HasValidator(a.validators, v)
    {
      AllocatedRecords(st, votes, tax, v);
    }
  }

  lemma AllocateKeeps(st: State, power: int, votes: seq<ValAddress>, tax: nat, accepted: bool)
    requires tax <= ONE && Inv(st) && AllocateTokens(st, power, votes, tax, accepted).Ok?
    ensures var r := AllocateTokens(st, power, votes, tax, accepted).value;
            Inv(r) && forall d :: Supply(r, d) == Supply(st, d)
  {
    AllocatePanics(st, power, votes, tax, accepted);
    if st.feeCollector != NONE && power == 0 {
      hide CommissionTotal, BalanceTotal, Add, HasValidator;
      var r := AllocateTokens(st, power, votes, tax, accepted).value;
      assert forall d :: Backed(st, d) ==> Backed(r, d);
    } else if st.feeCollector != NONE {
      hide AllocateTokens, Allocated, Divides, SpendPool, CommissionTotal, BalanceTotal, Inv;
      var a := Allocated(st, votes, tax);
      AllocatedKeeps(st, votes, tax);
      SpendInv(a, a.communityPool, a.communityAddress, accepted);
    }
  }

  lemma SpendInv(st: State, amount: Coins, to: AccAddress, accepted: bool)
    requires Inv(st)
    ensures SpendPool(st, amount, to, accepted).Some? ==>
              var r := SpendPool(st, amount, to, accepted).value;
              Inv(r) && forall d :: Supply(r, d) == Supply(st, d)
  {
    hide CommissionTotal, BalanceTotal, SpendPool, HasValidator;
    SpendKeeps(st, amount, to, accepted, "");
    if SpendPool(st, amount, to, accepted).Some? {
      var r := SpendPool(st, amount, to, accepted).value;
      forall d
        ensures Backed(r, d) && Supply(r, d) == Supply(st, d)
      {
        SpendKeeps(st, amount, to, accepted, d);
      }
    }
  }

  /** Every step keeps the invariant and conserves coins. */
  lemma StepKeeps(st: State, op: Op, d: Denom)
    requires Inv(st) && Step(st, op).Ok?
    ensures Inv(Step(st, op).value)
    ensures Supply(Step(st, op).value, d) == Supply(st, d) + Collected(st, op, d)
  {
    hide CommissionTotal, BalanceTotal, AllocateTokens, SpendPool, WithdrawCommission, SettleRemoved, IndexOf, Add, HasValidator,
      Inv, InitializeValidator;
    match op
    case CollectFees(fees) =>
      if Normal(fees) {
        CollectInv(st, fees, d);
      }
    case Allocate(power, votes, tax, accepted) =>
      if tax <= ONE {
        AllocateKeeps(st, power, votes, tax, accepted);
      }
    case Spend(amount, to, accepted) =>
      SpendInv(st, amount, to, accepted);
    case Withdraw(v, accepted) =>
      WithdrawInv(st, v, accepted, d);
    case Create(x) =>
      if IndexOf(st.validators, x.address) == |st.validators| {
        CreateInv(st, x, d);
      }
    case RemoveOp(v, accepted) =>
      RemoveInv(st, v, accepted, d);
    case Restake(vals) =>
      if Addresses(vals) == Addresses(st.validators) {
        RestakeInv(st, vals);
      }
  }

  lemma CollectInv(st: State, fees: Coins, d: Denom)
    requires Inv(st) && Normal(fees)
    ensures Inv(st.(feeCollector := Add(st.feeCollector, fees)))
    ensures Supply(st.(feeCollector := Add(st.feeCollector, fees)), d) == Supply(st, d) + Amount(fees, d)
  {
    hide CommissionTotal, BalanceTotal, Add, HasValidator;
    assert forall e :: Backed(st, e) ==> Backed(st.(feeCollector := Add(st.feeCollector, fees)), e);
  }

  lemma CreateInv(st: State, x: Validator, d: Denom)
    requires Inv(st) && IndexOf(st.validators, x.address) == |st.validators|
    ensures
      var r := InitializeValidator(st.(validators := st.validators + [x]), x.address);
      Inv(r) && Supply(r, d) == Supply(st, d)
  {
    hide CommissionTotal, BalanceTotal, IndexOf, HasValidator, DistinctValidators;
    CreateKeeps(st, x, d);
    forall e
      ensures Backed(InitializeValidator(st.(validators := st.validators + [x]), x.address), e)
    {
      CreateKeeps(st, x, e);
    }
  }

  lemma WithdrawInv(st: State, v: ValAddress, accepted: bool, d: Denom)
    requires Inv(st)
    ensures WithdrawCommission(st, v, accepted).Some? ==>
              var r := WithdrawCommission(st, v, accepted).value;
              Inv(r) && Supply(r, d) == Supply(st, d)
  {
    hide CommissionTotal, BalanceTotal, WithdrawCommission, HasValidator;
    WithdrawKeeps(st, v, accepted, d);
    if WithdrawCommission(st, v, accepted).Some? {
      var r := WithdrawCommission(st, v, accepted).value;
      forall e
        ensures Backed(r, e)
      {
        WithdrawKeeps(st, v, accepted, e);
      }
    }
  }

  lemma RemoveInv(st: State, v: ValAddress, accepted: bool, d: Denom)
    requires Inv(st)
    ensures SettleRemoved(st.(validators := Without(st.validators, v)), v, accepted).Ok? ==>
              var r := SettleRemoved(st.(validators := Without(st.validators, v)), v, accepted).value;
              Inv(r) && Supply(r, d) == Supply(st, d)
  {
    hide CommissionTotal, BalanceTotal, Without, HasValidator, Send, Truncate, Add, SafeSub;
    var s := st.(validators := Without(st.validators, v));
    if SettleRemoved(s, v, accepted).Ok? {
      SettleFrame(st, v, accepted, Without(st.validators, v));
      var r0 := SettleRemoved(st, v, accepted).value;
      var r := r0.(validators := Without(st.validators, v));
      hide SettleRemoved;
      forall e
        ensures Backed(r, e)
      {
        RemoveKeeps(st, v, accepted, e);
        assert Backed(r0, e);
      }
      RemoveKeeps(st, v, accepted, d);
      WithoutMeans(st.validators, v, 0);
      forall w | w in r.commissions
        ensures HasValidator(r.validators, w)
      {
        WithoutMeans(st.validators, v, w);
      }
    }
  }

  /** Settling a commission keeps the invariant also while the validator is still listed. */
  lemma RemoveStays(st: State, v: ValAddress, accepted: bool)
    requires Inv(st)
    ensures accepted ==> SettleRemoved(st, v, accepted).Ok?
    ensures SettleRemoved(st, v, accepted).Ok? ==> Inv(SettleRemoved(st, v, accepted).value)
  {
    hide CommissionTotal, BalanceTotal, HasValidator, SettleRemoved;
    RemoveKeeps(st, v, accepted, "");
    if SettleRemoved(st, v, accepted).Ok? {
      var r := SettleRemoved(st, v, accepted).value;
      forall e
        ensures Backed(r, e)
      {
        RemoveKeeps(st, v, accepted, e);
      }
    }
  }

  /** Nothing collected, owed or paid yet. */
  lemma GenesisInv(st: State)
    requires st.feeCollector == NONE && st.moduleCoins == NONE && st.communityPool == NONE && st.commissions == map[]
    requires DistinctValidators(st.validators)
    ensures Inv(st)
  {
    forall d
      ensures Backed(st, d)
    {
      assert CommissionAmounts(st.commissions, d) == map[];
    }
  }

  /** Settling a commission does not look at the validator list. */
  lemma SettleFrame(st: State, v: ValAddress, accepted: bool, vals: seq<Validator>)
    ensures var r := SettleRemoved(st, v, accepted);
            SettleRemoved(st.(validators := vals), v, accepted) == if r.Panic? then Panic else Ok(r.value.(validators := vals))
  {
    hide Truncate, Add, SafeSub;
  }

  lemma RestakeInv(st: State, vals: seq<Validator>)
    requires Inv(st) && Addresses(vals) == Addresses(st.validators)
    ensures Inv(st.(validators := vals)) && forall d :: Supply(st.(validators := vals), d) == Supply(st, d)
  {
    hide CommissionTotal, BalanceTotal;
    var r := st.(validators := vals);
    assert |Addresses(vals)| == |Addresses(st.validators)|;
    assert forall i :: 0 <= i < |vals| ==> Addresses(vals)[i] == vals[i].address && Addresses(vals)[i] == st.validators[i].address;
    forall v | v in r.commissions
      ensures HasValidator(vals, v)
    {
      var i :| 0 <= i < |st.validators| && st.validators[i].address == v;
      assert vals[i].address == v;
    }
    assert forall d :: Backed(st, d) ==> Backed(r, d);
  }

  function RunOps(st: State, ops: seq<Op>): Outcome<State>
    decreases |ops|
  {
    if ops == [] then Ok(st)
    else
      var r := Step(st, ops[0]);
      if r.Panic? then Panic else RunOps(r.value, ops[1..])
  }

  function CollectedBy(st: State, ops: seq<Op>, d: Denom): nat {
    if ops == [] then 0 else Collected(st, ops[0], d) + CollectedBy(st, ops[1..], d)
  }

  /** ModuleAccountInvariant over whole runs: the module account holds exactly the community pool
      and the accumulated commissions, and no coin is created or lost. */
  lemma {:induction false} RunKeeps(st: State, ops: seq<Op>, d: Denom)
    requires Inv(st) && RunOps(st, ops).Ok?
    ensures Inv(RunOps(st, ops).value)
    ensures Supply(RunOps(st, ops).value, d) == Supply(st, d) + CollectedBy(st, ops, d)
    decreases |ops|
  {
    hide Inv, Step, Supply;
    if ops != [] {
      StepKeeps(st, ops[0], d);
      RunKeeps(Step(st, ops[0]).value, ops[1..], d);
      CollectedFrame(st, Step(st, ops[0]).value, ops[1..], d);
    }
  }

  lemma {:induction false} CollectedFrame(st: State, st': State, ops: seq<Op>, d: Denom)
    ensures CollectedBy(st, ops, d) == CollectedBy(st', ops, d)
  {
    if ops != [] {
      CollectedFrame(st, st', ops[1..], d);
    }
  }
}
