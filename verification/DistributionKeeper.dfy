/** The distribution keeper, updating its store in place; each method is proved against the
    functions of Distribution. */
module DistributionKeepers {
  import opened EvmTypes
  import opened Coins
  import opened Distribution
  import opened Conservation
  import opened DistributionRuns
  import opened Payments

  class Keeper {
    var validators: seq<Validator>
    var feeCollector: Coins
    var moduleCoins: Coins
    var communityPool: Coins
    var commissions: map<ValAddress, Coins>
    var withdrawAddrs: map<ValAddress, AccAddress>
    var balances: map<AccAddress, Coins>
    var communityAddress: AccAddress
    var blacklist: set<AccAddress>

    ghost function View(): State
      reads this
    {
      State(validators, feeCollector, moduleCoins, communityPool, commissions, withdrawAddrs,
            balances, communityAddress, blacklist)
    }

    /** The module account holds exactly the community pool and the commissions. */
    ghost predicate Valid()
      reads this
    {
      Inv(View())
    }

    /** The loop that pays validators vs their fractions fs of the rewards. */
    method PayOut(vs: seq<ValAddress>, fs: seq<nat>, rewards: Coins) returns (remaining: Coins, ok: bool)
      requires |vs| == |fs|
      modifies this`commissions
      ensures ok <==> Remaining(rewards, fs).Some?
      ensures ok ==> Some(remaining) == Remaining(rewards, fs) && commissions == CreditAll(old(commissions), vs, fs, rewards)
    {
      hide Add, SafeSub, MulTruncate, Covered, Amount;
      remaining := rewards;
      var i := 0;
      while i < |vs|
        invariant 0 <= i <= |vs|
        invariant Remaining(rewards, fs[..i]) == Some(remaining)
        invariant commissions == CreditAll(old(commissions), vs[..i], fs[..i], rewards)
      {
        assert vs[..i + 1][..i] == vs[..i] && fs[..i + 1][..i] == fs[..i];
        var reward := MulTruncate(rewards, fs[i]);
        commissions := Credit(commissions, vs[i], reward);
        var left := SafeSub(remaining, reward);
        if left.None? {
          NegativeStays(rewards, fs, i + 1);
          return remaining, false;
        }
        remaining := left.value;
        i := i + 1;
      }
      assert vs[..i] == vs && fs[..i] == fs;
      ok := true;
    }

    method AllocateByEqual(rewards: Coins, votes: seq<ValAddress>) returns (remaining: Coins, ok: bool)
      modifies this`commissions
      ensures var r := Distribution.AllocateByEqual(old(View()), rewards, votes);
              (ok <==> r.Ok?) && (ok ==> (commissions, remaining) == r.value)
    {
      var vs: seq<ValAddress> := [];
      var i := 0;
      while i < |votes|
        invariant 0 <= i <= |votes| && vs == EligibleVoters(validators, votes[..i])
      {
        assert votes[..i + 1][..i] == votes[..i];
        var v := Find(validators, votes[i]);
        if v.Some? && !v.value.jailed {
          vs := vs + [votes[i]];
        }
        i := i + 1;
      }
      assert votes[..i] == votes;
      if |vs| == 0 {
        return rewards, false; // division by zero
      }
      remaining, ok := PayOut(vs, EqualFractions(|vs|), rewards);
    }

    method AllocateByShares(rewards: Coins) returns (remaining: Coins, ok: bool)
      modifies this`commissions
      ensures var r := Distribution.AllocateByShares(old(View()), rewards);
              (ok <==> r.Ok?) && (ok ==> (commissions, remaining) == r.value)
    {
      var vals: seq<Validator> := [];
      var i := 0;
      while i < |validators|
        invariant 0 <= i <= |validators| && vals == Unjailed(validators[..i])
      {
        assert validators[..i + 1][..i] == validators[..i];
        if !validators[i].jailed {
          vals := vals + [validators[i]];
        }
        i := i + 1;
      }
      assert validators[..i] == validators;
      var total := 0;
      i := 0;
      while i < |vals|
        invariant 0 <= i <= |vals| && total == TotalShares(vals[..i])
      {
        assert vals[..i + 1][..i] == vals[..i];
        total := total + vals[i].shares;
        i := i + 1;
      }
      assert vals[..i] == vals;
      if |vals| == 0 {
        return rewards, true;
      }
      if total == 0 {
        return rewards, false; // division by zero
      }
      remaining, ok := PayOut(Addresses(vals), ShareFractions(vals, total), rewards);
    }

    method SendFromModule(to: AccAddress, amount: Coins, accepted: bool) returns (ok: bool)
      modifies this`moduleCoins, this`balances
      ensures var r := Send(old(View()), to, amount, accepted);
              (ok <==> r.Some?) && View() == if ok then r.value else old(View())
      ensures ok <==> accepted && Covered(amount, old(moduleCoins))
      ensures ok ==> Sends(old(View()), View(), to, amount)
    {
      hide Sends, Covered;
      SendPays(View(), to, amount, accepted);
      var left := SafeSub(moduleCoins, amount);
      if left.None? || !accepted {
        return false;
      }
      moduleCoins := left.value;
      balances := balances[to := Add(if to in balances then balances[to] else NONE, amount)];
      ok := true;
    }

    method DistributeFromFeePool(amount: Coins, to: AccAddress, accepted: bool) returns (ok: bool)
      modifies this`communityPool, this`moduleCoins, this`balances
      ensures var r := SpendPool(old(View()), amount, to, accepted);
              (ok <==> r.Some?) && View() == if ok then r.value else old(View())
      ensures old(Valid()) ==> Valid() && (ok <==> accepted && Covered(amount, old(communityPool)))
      ensures ok && old(Valid()) ==>
                && Sends(old(View()), View(), to, amount)
                && forall d :: Amount(communityPool, d) == Amount(old(communityPool), d) - Amount(amount, d)
    {
      hide Inv, Sends, Covered;
      if Valid() {
        SpendInv(View(), amount, to, accepted);
        SpendPays(View(), amount, to, accepted);
      }
      var newPool := SafeSub(communityPool, amount);
      if newPool.None? {
        return false;
      }
      ok := SendFromModule(to, amount, accepted);
      if ok {
        communityPool := newPool.value;
      }
    }

    method AllocateTokens(power: int, votes: seq<ValAddress>, tax: nat, accepted: bool) returns (ok: bool)
      requires tax <= ONE
      modifies this
      ensures var r := Distribution.AllocateTokens(old(View()), power, votes, tax, accepted);
              (ok <==> r.Ok?) && (ok ==> View() == r.value)
      ensures ok && old(Valid()) ==> Valid()
      ensures old(Valid()) && NoRepeats(votes) && Splits(old(View()), power, votes) ==>
                ok && Allocates(old(View()), View(), votes, tax, accepted)
    {
      hide Distribution.AllocateByEqual, Distribution.AllocateByShares, SpendPool, Add, SafeSub, MulTruncate, Covered, Amount, Inv,
        Splits, Allocates, NoRepeats;
      if Valid() && Distribution.AllocateTokens(View(), power, votes, tax, accepted).Ok? {
        AllocateKeeps(View(), power, votes, tax, accepted);
      }
      if Valid() && NoRepeats(votes) && Splits(View(), power, votes) {
        AllocatePays(View(), power, votes, tax, accepted);
      }
      var fees := feeCollector;
      if fees == NONE {
        return true;
      }
      feeCollector := NONE;
      moduleCoins := Add(moduleCoins, fees);
      if power == 0 {
        communityPool := Add(communityPool, fees);
        return true;
      }
      var toVals := ValidatorFees(fees, tax);
      var byEqual, byVote := MulTruncate(toVals, VAL_PORTION), MulTruncate(toVals, VOTE_PORTION);
      var community := SafeSub(fees, Add(byEqual, byVote));
      if community.None? {
        return false;
      }
      var remainByEqual;
      remainByEqual, ok := AllocateByEqual(byEqual, votes);
      if !ok {
        return;
      }
      var remainByShare;
      remainByShare, ok := AllocateByShares(byVote);
      if !ok {
        return;
      }
      communityPool := Add(communityPool, Add(community.value, Add(remainByEqual, remainByShare)));
      var sent := DistributeFromFeePool(communityPool, communityAddress, accepted);
    }

    method WithdrawValidatorCommission(v: ValAddress, accepted: bool) returns (ok: bool)
      modifies this`commissions, this`moduleCoins, this`balances
      ensures var r := WithdrawCommission(old(View()), v, accepted);
              (ok <==> r.Some?) && (ok ==> View() == r.value)
      ensures ok && old(Valid()) ==>
                && Valid() && PaysOut(old(View()), View(), v)
                && forall w, d :: Owed(View(), w, d) == if w == v then Owed(old(View()), w, d) % ONE else Owed(old(View()), w, d)
    {
      hide Inv, PaysOut, Owed, Sends;
      if Valid() {
        WithdrawInv(View(), v, accepted, "");
        WithdrawPays(View(), v, accepted);
      }
      var accum := Commission(commissions, v);
      if accum == NONE {
        return false;
      }
      var (whole, remainder) := Truncate(accum);
      commissions := commissions[v := remainder];
      ok := true;
      if whole != NONE {
        ok := SendFromModule(if v in withdrawAddrs then withdrawAddrs[v] else v, whole, accepted);
      }
    }

    /** With the staking validator x already in the store, its record is opened: no commission that
        anybody has changes, and the books stay balanced. */
    method AfterValidatorCreated(x: Validator)
      modifies this`commissions
      ensures View() == InitializeValidator(old(View()), x.address)
      ensures x.address in commissions && Commission(commissions, x.address) == NONE
      ensures forall w :: w != x.address ==> Commission(commissions, w) == Commission(old(commissions), w)
      ensures forall st: State ::
                Inv(st) && IndexOf(st.validators, x.address) == |st.validators|
                && old(View()) == st.(validators := st.validators + [x]) ==>
                Valid() && forall w :: Commission(commissions, w) == Commission(st.commissions, w)
    {
      hide Inv, IndexOf;
      commissions := commissions[x.address := NONE];
      forall st: State |
        Inv(st) && IndexOf(st.validators, x.address) == |st.validators| && old(View()) == st.(validators := st.validators + [x])
        ensures Valid() && forall w :: Commission(commissions, w) == Commission(st.commissions, w)
      {
        CreateInv(st, x, "");
        CreateKeeps(st, x, "");
      }
    }

    method AfterValidatorRemoved(v: ValAddress, accepted: bool) returns (ok: bool)
      modifies this`commissions, this`communityPool, this`moduleCoins, this`balances
      ensures var r := SettleRemoved(old(View()), v, accepted);
              (ok <==> r.Ok?) && (ok ==> View() == r.value)
      ensures old(Valid()) ==> (ok <==> accepted || !Payable(old(View()), v))
      ensures ok && old(Valid()) ==>
                && Valid() && commissions == old(commissions) - {v} && PaysOut(old(View()), View(), v)
                && forall d :: Amount(communityPool, d) == Amount(old(communityPool), d) + Owed(old(View()), v, d) % ONE
    {
      hide Inv, PaysOut, Owed, Sends, Payable;
      if Valid() {
        RemoveStays(View(), v, accepted);
        RemovePays(View(), v, accepted);
      }
      var (whole, remainder) := Truncate(Commission(commissions, v));
      communityPool := Add(communityPool, remainder);
      ok := true;
      if whole != NONE {
        ok := SendFromModule(if v in withdrawAddrs then withdrawAddrs[v] else v, whole, accepted);
      }
      commissions := commissions - {v};
    }
  }

  /** A subtraction that went negative is never made good. */
  lemma {:induction false} NegativeStays(rewards: Coins, fs: seq<nat>, i: nat)
    requires i <= |fs| && Remaining(rewards, fs[..i]).None?
    ensures Remaining(rewards, fs).None?
    decreases |fs| - i
  {
    if i == |fs| {
      assert fs[..i] == fs;
    } else {
      assert fs[..i + 1][..i] == fs[..i];
      NegativeStays(rewards, fs, i + 1);
    }
  }
}
