/** Fee distribution: splitting the collected fees between validators and the community pool,
    and the bookkeeping of accumulated commissions. */
module Distribution {
  import opened EvmTypes
  import opened Coins
  import opened Sums

  type ValAddress = nat
  type AccAddress = nat

  /** What distribution sees of a validator of the staking module. */
  datatype Validator = Validator(address: ValAddress, jailed: bool, shares: nat)

  const VAL_PORTION: nat := 200_000_000_000_000_000   // 0.20
  const VOTE_PORTION: nat := 800_000_000_000_000_000  // 0.80

  datatype State = State(
    validators: seq<Validator>,
    feeCollector: Coins,
    moduleCoins: Coins,
    communityPool: Coins,
    commissions: map<ValAddress, Coins>,
    withdrawAddrs: map<ValAddress, AccAddress>,
    balances: map<AccAddress, Coins>,
    communityAddress: AccAddress,
    blacklist: set<AccAddress>)

  function Commission(m: map<ValAddress, Coins>, v: ValAddress): Coins {
    if v in m then m[v] else NONE
  }

  function Balance(st: State, a: AccAddress): Coins {
    if a in st.balances then st.balances[a] else NONE
  }

  function WithdrawAddr(st: State, v: ValAddress): AccAddress {
    if v in st.withdrawAddrs then st.withdrawAddrs[v] else v
  }

  /** SendCoinsFromModuleToAccount; accepted is false when the bank refuses the transfer for a
      reason of its own. */
  function Send(st: State, to: AccAddress, amount: Coins, accepted: bool): Option<State> {
    var left := SafeSub(st.moduleCoins, amount);
    if left.None? || !accepted then None
    else Some(st.(moduleCoins := left.value, balances := st.balances[to := Add(Balance(st, to), amount)]))
  }

  // ---------- Allocation ----------

  /** AllocateTokensToValidator. */
  function Credit(m: map<ValAddress, Coins>, v: ValAddress, tokens: Coins): map<ValAddress, Coins> {
    m[v := Add(Commission(m, v), tokens)]
  }

  /** The commissions after validators vs have been credited rewards at fractions fs. */
  function CreditAll(m: map<ValAddress, Coins>, vs: seq<ValAddress>, fs: seq<nat>, rewards: Coins): map<ValAddress, Coins>
    requires |vs| == |fs|
    decreases |vs|
  {
    if vs == [] then m
    else
      var n := |vs| - 1;
      Credit(CreditAll(m, vs[..n], fs[..n], rewards), vs[n], MulTruncate(rewards, fs[n]))
  }

  /** What remains of the rewards; None when a subtraction would go negative. */
  function Remaining(rewards: Coins, fs: seq<nat>): Option<Coins> {
    if fs == [] then Some(rewards)
    else
      var prev := Remaining(rewards, fs[..|fs| - 1]);
      if prev.None? then None else SafeSub(prev.value, MulTruncate(rewards, fs[|fs| - 1]))
  }

  function Find(vals: seq<Validator>, v: ValAddress): Option<Validator> {
    if vals == [] then None
    else if vals[0].address == v then Some(vals[0])
    else Find(vals[1..], v)
  }

  /** The voters that exist and are not jailed, in vote order. */
  function EligibleVoters(vals: seq<Validator>, votes: seq<ValAddress>): seq<ValAddress> {
    if votes == [] then []
    else
      var n := |votes| - 1;
      var rest := EligibleVoters(vals, votes[..n]);
      var v := Find(vals, votes[n]);
      if v.Some? && !v.value.jailed then rest + [votes[n]] else rest
  }

  /** The validators that are not jailed, in store order. */
  function Unjailed(vals: seq<Validator>): seq<Validator> {
    if vals == [] then []
    else
      var n := |vals| - 1;
      if vals[n].jailed then Unjailed(vals[..n]) else Unjailed(vals[..n]) + [vals[n]]
  }

  function Addresses(vals: seq<Validator>): seq<ValAddress> {
    seq(|vals|, i requires 0 <= i < |vals| => vals[i].address)
  }

  function TotalShares(vals: seq<Validator>): nat {
    if vals == [] then 0 else TotalShares(vals[..|vals| - 1]) + vals[|vals| - 1].shares
  }

  /** n equal fractions of one. */
  function EqualFractions(n: nat): seq<nat>
    requires n > 0
  {
    seq(n, i => QuoTruncate(ONE, n * ONE))
  }

  /** Fractions by share of the total. */
  function ShareFractions(vals: seq<Validator>, total: nat): seq<nat>
    requires total > 0
  {
    seq(|vals|, i requires 0 <= i < |vals| => QuoTruncate(vals[i].shares, total))
  }

  /** allocateByEqual and allocateByShares: new commissions and the remaining rewards.  An empty
      list of voters, and validators without any shares, divide by zero. */
  function AllocateByEqual(st: State, rewards: Coins, votes: seq<ValAddress>): Outcome<(map<ValAddress, Coins>, Coins)> {
    var vs := EligibleVoters(st.validators, votes);
    if vs == [] then Panic
    else
      var rest := Remaining(rewards, EqualFractions(|vs|));
      if rest.None? then Panic
      else Ok((CreditAll(st.commissions, vs, EqualFractions(|vs|), rewards), rest.value))
  }

  function AllocateByShares(st: State, rewards: Coins): Outcome<(map<ValAddress, Coins>, Coins)> {
    var vals := Unjailed(st.validators);
    var total := TotalShares(vals);
    if vals == [] then Ok((st.commissions, rewards))
    else if total == 0 then Panic
    else
      var rest := Remaining(rewards, ShareFractions(vals, total));
      if rest.None? then Panic
      else Ok((CreditAll(st.commissions, Addresses(vals), ShareFractions(vals, total), rewards), rest.value))
  }

  /** The part of the fees that goes to the community before any remainder. */
  function ValidatorFees(fees: Coins, tax: nat): Coins
    requires tax <= ONE
  {
    MulTruncate(fees, ONE - tax)
  }

  /** distributeFromFeePool. */
  function SpendPool(st: State, amount: Coins, to: AccAddress, accepted: bool): Option<State> {
    var left := SafeSub(st.communityPool, amount);
    if left.None? then None
    else
      var sent := Send(st, to, amount, accepted);
      if sent.None? then None else Some(sent.value.(communityPool := left.value))
  }

  /** AllocateTokens. */
  function AllocateTokens(st: State, totalPower: int, votes: seq<ValAddress>, tax: nat, accepted: bool): Outcome<State>
    requires tax <= ONE
  {
    var fees := st.feeCollector;
    if fees == NONE then Ok(st)
    else
      var st1 := st.(feeCollector := NONE, moduleCoins := Add(st.moduleCoins, fees));
      if totalPower == 0 then Ok(st1.(communityPool := Add(st.communityPool, fees)))
      else
        var toVals := ValidatorFees(fees, tax);
        var byEqual, byVote := MulTruncate(toVals, VAL_PORTION), MulTruncate(toVals, VOTE_PORTION);
        var community := SafeSub(fees, Add(byEqual, byVote));
        if community.None? then Panic
        else
          var e := AllocateByEqual(st1, byEqual, votes);
          if e.Panic? then Panic
          else
            var s := AllocateByShares(st1.(commissions := e.value.0), byVote);
            if s.Panic? then Panic
            else
              var gain := Add(community.value, Add(e.value.1, s.value.1));
              var st2 := st1.(commissions := s.value.0, communityPool := Add(st.communityPool, gain));
              var spent := SpendPool(st2, st2.communityPool, st2.communityAddress, accepted);
              Ok(if spent.None? then st2 else spent.value)
  }

  // ---------- Commissions ----------

  /** WithdrawValidatorCommission; None stands for a returned error, after which the transaction
      is rolled back. */
  function WithdrawCommission(st: State, v: ValAddress, accepted: bool): Option<State> {
    var accum := Commission(st.commissions, v);
    if accum == NONE then None
    else
      var (whole, remainder) := Truncate(accum);
      var st1 := st.(commissions := st.commissions[v := remainder]);
      if whole == NONE then Some(st1) else Send(st1, WithdrawAddr(st1, v), whole, accepted)
  }

  /** AfterValidatorCreated. */
  function InitializeValidator(st: State, v: ValAddress): State {
    st.(commissions := st.commissions[v := NONE])
  }

  /** AfterValidatorRemoved. */
  function SettleRemoved(st: State, v: ValAddress, accepted: bool): Outcome<State> {
    var (whole, remainder) := Truncate(Commission(st.commissions, v));
    var st1 := st.(communityPool := Add(st.communityPool, remainder));
    var st2 := if whole == NONE then Some(st1) else Send(st1, WithdrawAddr(st1, v), whole, accepted);
    if st2.None? then Panic else Ok(st2.value.(commissions := st.commissions - {v}))
  }

  /** HandleCommunityPoolSpendProposal. */
  function SpendProposal(st: State, amount: Coins, to: AccAddress, accepted: bool): Option<State> {
    if to in st.blacklist then None else SpendPool(st, amount, to, accepted)
  }
}
