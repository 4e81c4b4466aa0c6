/** The staking keeper in the program's own form: methods that rewrite one key-value store step
    by step, proved equal to the functions on stores. */
module StakingKeepers {
  import opened EvmTypes
  import opened Coins
  import opened Sorting
  import opened StakingStore
  import opened StakingInvariants
  import opened ValidatorSet
  import opened Elections
  import opened EndBlocks
  import opened StakingRuns
  import opened StakingFrames
  import opened StakingRefusals
  import opened StakingMessages
  import opened ProxyMessages
  import opened DelegatorMessages
  import opened ValidatorMessages

  // ---------- Freeing the delegators of a proxy ----------

  /** The delegators in done, and only they, have been freed. */
  ghost predicate Freeing(st: Store, r: Store, proxy: Address, done: seq<Address>) {
    && r == st.(delegators := r.delegators, bindings := r.bindings)
    && r.delegators.Keys == st.delegators.Keys
    && (forall a :: a in st.delegators ==>
          r.delegators[a] == if a in done then st.delegators[a].(proxy := None) else st.delegators[a])
    && (forall b :: b in r.bindings <==> b in st.bindings && !(b.proxy == proxy && b.delegator in done))
  }

  function FreeOne(st: Store, proxy: Address, a: Address): Store {
    st.(delegators := if a in st.delegators then st.delegators[a := st.delegators[a].(proxy := None)] else st.delegators,
        bindings := st.bindings - {Binding(proxy, a)})
  }

  lemma FreeingNone(st: Store, proxy: Address)
    ensures Freeing(st, st, proxy, [])
  {
  }

  lemma FreeingNext(st: Store, r: Store, proxy: Address, done: seq<Address>, a: Address)
    requires Freeing(st, r, proxy, done)
    ensures Freeing(st, FreeOne(r, proxy, a), proxy, done + [a])
  {
  }

  lemma FreeingAll(st: Store, r: Store, proxy: Address, done: seq<Address>)
    requires Freeing(st, r, proxy, done) && forall a :: a in done <==> a in BoundTo(st, proxy)
    ensures r == ClearProxy(st, proxy)
  {
    var c := ClearProxy(st, proxy);
    assert r.delegators == c.delegators;
    assert r.bindings == c.bindings;
  }

  class Keeper {
    var kv: Store

    constructor (st: Store)
      ensures kv == st
    {
      kv := st;
    }

    /** The invariant of the staking store, which the handler and the end of a block keep. */
    ghost predicate Valid(ctx: Context)
      reads this
      requires ctx.Valid()
    {
      Inv(kv, ctx)
    }

    // ---------- Records and indexes ----------

    method PutValidator(v: Validator)
      modifies this
      ensures kv == SetValidator(old(kv), v)
    {
      kv := kv.(validators := kv.validators[v.operator := v]);
    }

    method SetByPowerIndex(ctx: Context, v: Validator)
      requires ctx.Valid()
      modifies this
      ensures kv == SetIndex(old(kv), ctx, v)
    {
      if v.jailed {
        return;
      }
      kv := kv.(powerIndex := kv.powerIndex + {KeyOf(ctx, v)});
    }

    method DeleteByPowerIndex(ctx: Context, v: Validator)
      requires ctx.Valid()
      modifies this
      ensures kv == DeleteIndex(old(kv), ctx, v)
    {
      kv := kv.(powerIndex := kv.powerIndex - {KeyOf(ctx, v)});
    }

    method Remove(ctx: Context, a: Address)
      requires ctx.Valid()
      modifies this
      ensures kv == RemoveValidator(old(kv), ctx, a)
    {
      if a in kv.validators {
        var v := kv.validators[a];
        kv := kv.(validators := kv.validators - {a});
        kv := kv.(powerIndex := kv.powerIndex - {KeyOf(ctx, v)});
      }
    }

    /** Delete the key of the old shares, then write the record and the key of the new ones. */
    method Reindex(ctx: Context, v: Validator, shares: int)
      requires ctx.Valid()
      modifies this
      ensures kv == Reweigh(old(kv), ctx, v, shares)
    {
      hide Power;
      DeleteByPowerIndex(ctx, v);
      var v' := v.(shares := shares);
      PutValidator(v');
      SetByPowerIndex(ctx, v');
    }

    // ---------- Shares ----------

    /** GetLastValsAddedSharesExisted. */
    method GetExisting(vs: seq<Address>) returns (vals: seq<Validator>)
      ensures vals == Existing(kv, vs)
    {
      vals := [];
      var i := 0;
      while i < |vs|
        invariant 0 <= i <= |vs|
        invariant vals + Existing(kv, vs[i..]) == Existing(kv, vs)
      {
        assert vs[i..][0] == vs[i] && vs[i..][1..] == vs[i + 1..];
        if vs[i] in kv.validators {
          vals := vals + [kv.validators[vs[i]]];
        }
        i := i + 1;
      }
    }

    method UpdateShares(ctx: Context, del: Address, tokens: int) returns (ok: bool)
      requires ctx.Valid()
      modifies this
      ensures ok <==> StakingStore.UpdateShares(old(kv), ctx, del, tokens).Some?
      ensures ok ==> kv == StakingStore.UpdateShares(old(kv), ctx, del, tokens).value
    {
      hide Reweigh, Weigh;
      if del !in kv.delegators {
        return true;
      }
      var d := kv.delegators[del];
      var vals := GetExisting(d.validators);
      if vals == [] {
        return true;
      }
      var shares := Weigh(ctx, tokens);
      ghost var all := UpdateLoop(kv, ctx, del, vals, d.shares, shares);
      var i := 0;
      while i < |vals|
        invariant 0 <= i <= |vals|
        invariant UpdateLoop(kv, ctx, del, vals[i..], d.shares, shares) == all
      {
        assert vals[i..][0] == vals[i] && vals[i..][1..] == vals[i + 1..];
        if vals[i].minSelfDelegation == 0 {
          return false;
        }
        kv := kv.(shares := kv.shares[ShareKey(vals[i].operator, del) := shares]);
        Reindex(ctx, vals[i], vals[i].shares - d.shares + shares);
        i := i + 1;
      }
      kv := kv.(delegators := kv.delegators[del := d.(shares := shares)]);
      return true;
    }

    method WithdrawShares(ctx: Context, del: Address, v: Validator, shares: int)
      requires ctx.Valid()
      modifies this
      ensures kv == WithdrawOne(old(kv), ctx, del, v, shares)
    {
      hide Power;
      kv := kv.(shares := kv.shares - {ShareKey(v.operator, del)});
      if v.status == Unbonded && v.minSelfDelegation == 0 && v.shares - shares == 0 {
        DeleteByPowerIndex(ctx, v);
        Remove(ctx, v.operator);
      } else {
        Reindex(ctx, v, v.shares - shares);
      }
    }

    method WithdrawLastShares(ctx: Context, del: Address, vals: seq<Validator>, shares: int)
      requires ctx.Valid()
      modifies this
      ensures kv == WithdrawLoop(old(kv), ctx, del, vals, shares)
    {
      hide WithdrawOne;
      var i := 0;
      while i < |vals|
        invariant 0 <= i <= |vals|
        invariant WithdrawLoop(kv, ctx, del, vals[i..], shares) == WithdrawLoop(old(kv), ctx, del, vals, shares)
      {
        assert vals[i..][0] == vals[i] && vals[i..][1..] == vals[i + 1..];
        WithdrawShares(ctx, del, vals[i], shares);
        i := i + 1;
      }
    }

    method AddSharesToValidators(ctx: Context, del: Address, vals: seq<Validator>, tokens: int) returns (shares: int)
      requires ctx.Valid()
      modifies this
      ensures shares == Weigh(ctx, tokens)
      ensures kv == AddLoop(old(kv), ctx, del, vals, shares)
    {
      hide Reweigh, Weigh;
      shares := Weigh(ctx, tokens);
      var i := 0;
      while i < |vals|
        invariant 0 <= i <= |vals|
        invariant AddLoop(kv, ctx, del, vals[i..], shares) == AddLoop(old(kv), ctx, del, vals, shares)
      {
        assert vals[i..][0] == vals[i] && vals[i..][1..] == vals[i + 1..];
        kv := kv.(shares := kv.shares[ShareKey(vals[i].operator, del) := shares]);
        Reindex(ctx, vals[i], vals[i].shares + shares);
        i := i + 1;
      }
    }

    /** GetValidatorsToAddShares and isDismissed: every target must exist and be in service. */
    method CheckTargets(targets: seq<Address>) returns (ok: bool)
      ensures ok <==> forall t :: t in targets ==> t in kv.validators && kv.validators[t].minSelfDelegation != 0
    {
      var i := 0;
      while i < |targets|
        invariant 0 <= i <= |targets|
        invariant forall j :: 0 <= j < i ==>
                    targets[j] in kv.validators && kv.validators[targets[j]].minSelfDelegation != 0
      {
        if targets[i] !in kv.validators || kv.validators[targets[i]].minSelfDelegation == 0 {
          return false;
        }
        i := i + 1;
      }
      return true;
    }

    method AddShares(ctx: Context, del: Address, targets: seq<Address>) returns (ok: bool)
      requires ctx.Valid()
      modifies this
      ensures ok <==> StakingStore.AddShares(old(kv), ctx, del, targets).Some?
      ensures ok ==> kv == StakingStore.AddShares(old(kv), ctx, del, targets).value
      ensures ok && old(Valid(ctx)) ==> Valid(ctx)
    {
      hide WithdrawLoop, AddLoop, Weigh, Existing, Inv;
      if Valid(ctx) && StakingStore.AddShares(kv, ctx, del, targets).Some? {
        AddSharesInv(kv, ctx, del, targets);
      }
      if targets == [] || |targets| > ctx.maxValsToAddShares || !NoRepeats(targets) {
        return false;
      }
      if del !in kv.delegators || kv.delegators[del].tokens == 0 {
        return false;
      }
      var d := kv.delegators[del];
      if d.proxy.Some? {
        return false;
      }
      var last := GetExisting(d.validators);
      WithdrawLastShares(ctx, del, last, d.shares);
      ok := CheckTargets(targets);
      if ok {
        var vals := GetExisting(targets);
        var shares := AddSharesToValidators(ctx, del, vals, d.tokens + d.totalDelegated);
        kv := kv.(delegators := kv.delegators[del := d.(validators := targets, shares := shares)]);
      }
    }

    // ---------- Validator set ----------

    /** DeleteValidatorQueue. */
    method DeleteFromQueue(t: Time, a: Address)
      modifies this
      ensures kv == old(kv).(queue := Dequeue(old(kv).queue, t, a))
    {
      var slice := if t in kv.queue then kv.queue[t] else [];
      var rest := [];
      var i := 0;
      while i < |slice|
        invariant 0 <= i <= |slice| && kv == old(kv)
        invariant rest + Without(slice[i..], a) == Without(slice, a)
      {
        assert slice[i..][0] == slice[i] && slice[i..][1..] == slice[i + 1..];
        if slice[i] != a {
          rest := rest + [slice[i]];
        }
        i := i + 1;
      }
      assert rest == Without(slice, a);
      if rest == [] {
        kv := kv.(queue := kv.queue - {t});
      } else {
        kv := kv.(queue := kv.queue[t := rest]);
      }
    }

    method Bond(ctx: Context, v: Validator)
      requires ctx.Valid()
      modifies this
      ensures kv == BondValidator(old(kv), ctx, v)
    {
      hide Power, Dequeue;
      DeleteByPowerIndex(ctx, v);
      var v' := v.(status := Bonded);
      PutValidator(v');
      SetByPowerIndex(ctx, v');
      DeleteFromQueue(v'.unbondingTime, v'.operator);
    }

    method StartUnbonding(ctx: Context, v: Validator)
      requires ctx.Valid()
      modifies this
      ensures kv == BeginUnbonding(old(kv), ctx, v)
    {
      hide Power;
      DeleteByPowerIndex(ctx, v);
      var v' := v.(status := Unbonding, unbondingTime := ctx.maturity);
      PutValidator(v');
      SetByPowerIndex(ctx, v');
      var slice := if v'.unbondingTime in kv.queue then kv.queue[v'.unbondingTime] else [];
      kv := kv.(queue := kv.queue[v'.unbondingTime := slice + [v'.operator]]);
    }

    /** The first loop of ApplyAndReturnValidatorSetUpdates. */
    method ElectAll(ctx: Context) returns (r: Outcome<(map<Address, int>, seq<Update>, int)>)
      requires ctx.Valid()
      modifies this
      ensures
        var s := ElectLoop(Election(old(kv), old(kv).lastPowers, [], 0), ctx, Ranking(old(kv)), 0);
        && (r.Panic? <==> s.Panic?)
        && (r.Ok? ==> s == Ok(Election(kv, r.value.0, r.value.1, r.value.2)))
    {
      hide Power, BondValidator, Ranking;
      var last: map<Address, int>, updates: seq<Update>, total: int := kv.lastPowers, [], 0;
      var keys := Ranking(kv);
      var i, count: nat := 0, 0;
      while i < |keys| && count < ctx.maxValidators
        invariant 0 <= i <= |keys|
        invariant ElectLoop(Election(kv, last, updates, total), ctx, keys[i..], count) ==
                  ElectLoop(Election(old(kv), old(kv).lastPowers, [], 0), ctx, keys, 0)
      {
        assert keys[i..][0] == keys[i] && keys[i..][1..] == keys[i + 1..];
        var a := keys[i].operator;
        if a !in kv.validators || kv.validators[a].jailed {
          return Panic;
        }
        var v := kv.validators[a];
        var power := Power(ctx, v.shares);
        if power == 0 {
          break;
        }
        i := i + 1;
        if v.minSelfDelegation < MIN_SELF_DELEGATION {
          continue;
        }
        if v.status != Bonded {
          Bond(ctx, v);
        }
        if v.operator !in last || last[v.operator] != power {
          updates := updates + [Update(v.operator, power)];
          kv := kv.(lastPowers := kv.lastPowers[v.operator := power]);
        }
        last := last - {v.operator};
        count := count + 1;
        total := total + power;
      }
      return Ok((last, updates, total));
    }

    method ApplyAndReturnUpdates(ctx: Context) returns (r: Outcome<seq<Update>>)
      requires ctx.Valid()
      modifies this
      ensures r.Panic? <==> ApplyUpdates(old(kv), ctx).Panic?
      ensures r.Ok? ==> ApplyUpdates(old(kv), ctx) == Ok((kv, r.value))
    {
      hide Power, BeginUnbonding, ElectLoop, Ranking, SortedAddresses;
      var e := ElectAll(ctx);
      if e.Panic? {
        return Panic;
      }
      var (last, updates, total) := e.value;
      var leaving := SortedAddresses(last.Keys);
      ghost var all := RetireLoop(Election(kv, last, updates, total), ctx, leaving);
      var i := 0;
      while i < |leaving|
        invariant 0 <= i <= |leaving|
        invariant RetireLoop(Election(kv, last, updates, total), ctx, leaving[i..]) == all
      {
        assert leaving[i..][0] == leaving[i] && leaving[i..][1..] == leaving[i + 1..];
        if leaving[i] !in kv.validators || kv.validators[leaving[i]].status != Bonded {
          return Panic;
        }
        var v := kv.validators[leaving[i]];
        StartUnbonding(ctx, v);
        kv := kv.(lastPowers := kv.lastPowers - {v.operator});
        updates := updates + [Update(v.operator, 0)];
        i := i + 1;
      }
      if |updates| > 0 {
        kv := kv.(lastTotal := total);
      }
      return Ok(updates);
    }

    /** The promotion loop of KickOutAndReturnValidatorSetUpdates. */
    method PromoteAll(ctx: Context) returns (r: Outcome<(seq<Update>, int)>)
      requires ctx.Valid()
      modifies this
      ensures
        var s := PromoteLoop(Election(old(kv), old(kv).lastPowers, [], old(kv).lastTotal), ctx, Ranking(old(kv)), |old(kv).abandoned|);
        && (r.Panic? <==> s.Panic?)
        && (r.Ok? ==> s == Ok(Election(kv, old(kv).lastPowers, r.value.0, r.value.1)))
    {
      hide Power, BondValidator, Ranking;
      var last := kv.lastPowers;
      var updates: seq<Update>, total := [], kv.lastTotal;
      var keys := Ranking(kv);
      var i, vacancies: nat := 0, |kv.abandoned|;
      while i < |keys| && vacancies > 0
        invariant 0 <= i <= |keys|
        invariant PromoteLoop(Election(kv, last, updates, total), ctx, keys[i..], vacancies) ==
                  PromoteLoop(Election(old(kv), last, [], old(kv).lastTotal), ctx, keys, |old(kv).abandoned|)
      {
        assert keys[i..][0] == keys[i] && keys[i..][1..] == keys[i + 1..];
        var a := keys[i].operator;
        i := i + 1;
        if a in last {
          continue;
        }
        if a !in kv.validators {
          return Panic;
        }
        var v := kv.validators[a];
        var power := Power(ctx, v.shares);
        if power == 0 || v.minSelfDelegation < MIN_SELF_DELEGATION {
          continue;
        }
        if v.status == Bonded {
          return Panic;
        }
        Bond(ctx, v);
        updates := updates + [Update(v.operator, power)];
        kv := kv.(lastPowers := kv.lastPowers[v.operator := power]);
        total := total + power;
        vacancies := vacancies - 1;
      }
      return Ok((updates, total));
    }

    method KickOutAndReturnUpdates(ctx: Context) returns (r: Outcome<seq<Update>>)
      requires ctx.Valid()
      modifies this
      ensures r.Panic? <==> KickOut(old(kv), ctx).Panic?
      ensures r.Ok? ==> KickOut(old(kv), ctx) == Ok((kv, r.value))
    {
      hide Power, BeginUnbonding, PromoteLoop, Ranking;
      var last, abandoned := kv.lastPowers, kv.abandoned;
      var p := PromoteAll(ctx);
      if p.Panic? {
        return Panic;
      }
      var (updates, total) := p.value;
      ghost var all := DischargeLoop(Election(kv, last, updates, total), ctx, abandoned);
      var i := 0;
      while i < |abandoned|
        invariant 0 <= i <= |abandoned|
        invariant DischargeLoop(Election(kv, last, updates, total), ctx, abandoned[i..]) == all
      {
        assert abandoned[i..][0] == abandoned[i] && abandoned[i..][1..] == abandoned[i + 1..];
        var a := abandoned[i];
        i := i + 1;
        if a !in kv.validators {
          return Panic;
        }
        var v := kv.validators[a];
        if v.status == Bonded {
          if a !in last {
            return Panic;
          }
          StartUnbonding(ctx, v);
          kv := kv.(lastPowers := kv.lastPowers - {v.operator});
          updates := updates + [Update(v.operator, 0)];
          total := total - last[a];
        }
      }
      kv := kv.(lastTotal := total);
      return Ok(updates);
    }

    // ---------- Maturing ----------

    method UnbondSlice(ctx: Context, slice: seq<Address>) returns (ok: bool)
      requires ctx.Valid()
      modifies this
      ensures ok <==> MatureSlice(old(kv), ctx, slice).Ok?
      ensures ok ==> MatureSlice(old(kv), ctx, slice) == Ok(kv)
    {
      hide Power, RemoveValidator;
      var i := 0;
      while i < |slice|
        invariant 0 <= i <= |slice|
        invariant MatureSlice(kv, ctx, slice[i..]) == MatureSlice(old(kv), ctx, slice)
      {
        assert slice[i..][0] == slice[i] && slice[i..][1..] == slice[i + 1..];
        if slice[i] !in kv.validators || kv.validators[slice[i]].status != Unbonding {
          return false;
        }
        var v := kv.validators[slice[i]];
        PutValidator(v.(status := Unbonded));
        if v.shares == 0 && v.minSelfDelegation == 0 {
          Remove(ctx, v.operator);
        }
        i := i + 1;
      }
      return true;
    }

    method UnbondAllMatureQueue(ctx: Context) returns (ok: bool)
      requires ctx.Valid()
      modifies this
      ensures ok <==> UnbondAllMature(old(kv), ctx).Ok?
      ensures ok ==> UnbondAllMature(old(kv), ctx) == Ok(kv)
    {
      hide MatureSlice, MatureTimes;
      var times := MatureTimes(kv, ctx);
      var i := 0;
      while i < |times|
        invariant 0 <= i <= |times|
        invariant MatureLoop(kv, ctx, times[i..]) == MatureLoop(old(kv), ctx, times)
      {
        assert times[i..][0] == times[i] && times[i..][1..] == times[i + 1..];
        ok := UnbondSlice(ctx, if times[i] in kv.queue then kv.queue[times[i]] else []);
        if !ok {
          return;
        }
        kv := kv.(queue := kv.queue - {times[i]});
        i := i + 1;
      }
      return true;
    }

    method CompleteUndelegation(k: TimeKey)
      modifies this
      ensures kv == Complete(old(kv), k)
    {
      kv := kv.(timeKeys := kv.timeKeys - {k});
      if k.delegator in kv.undelegations && kv.undelegations[k.delegator].quantity <= kv.notBonded {
        var q := kv.undelegations[k.delegator].quantity;
        kv := kv.(notBonded := kv.notBonded - q, balances := kv.balances[k.delegator := BalanceOf(kv, k.delegator) + q]);
        kv := kv.(undelegations := kv.undelegations - {k.delegator});
      }
    }

    method EndBlocker(ctx: Context, endOfEpoch: bool) returns (r: Outcome<seq<Update>>)
      requires ctx.Valid()
      modifies this
      ensures r.Panic? <==> EndBlock(old(kv), ctx, endOfEpoch).Panic?
      ensures r.Ok? ==> EndBlock(old(kv), ctx, endOfEpoch) == Ok((kv, r.value))
      ensures old(Valid(ctx)) ==>
                && r.Ok? && Valid(ctx) && PaysDue(old(kv), kv, ctx)
                && Ends(old(kv), kv, ctx, endOfEpoch)
                && (forall a :: IsBonded(kv, a) <==> Seated(old(kv), ctx, endOfEpoch, a))
                && Applied(old(kv).lastPowers, r.value) == kv.lastPowers && ExactDiff(old(kv).lastPowers, r.value)
    {
      hide ApplyUpdates, KickOut, UnbondAllMature, Complete, MatureKeys, Inv, PaysDue, Applied, ExactDiff, Ends, IsBonded, Seated;
      if Valid(ctx) {
        EndBlockKeeps(kv, ctx, endOfEpoch);
      }
      r := Ok([]);
      if endOfEpoch {
        r := ApplyAndReturnUpdates(ctx);
        if r.Panic? {
          return;
        }
        kv := kv.(abandoned := []);
      } else if kv.abandoned != [] {
        r := KickOutAndReturnUpdates(ctx);
        if r.Panic? {
          return;
        }
        kv := kv.(abandoned := []);
      }
      var ok := UnbondAllMatureQueue(ctx);
      if !ok {
        return Panic;
      }
      var keys := MatureKeys(kv, ctx);
      ghost var all := CompleteLoop(kv, keys);
      var i := 0;
      while i < |keys|
        invariant 0 <= i <= |keys|
        invariant CompleteLoop(kv, keys[i..]) == all
      {
        assert keys[i..][0] == keys[i] && keys[i..][1..] == keys[i + 1..];
        CompleteUndelegation(keys[i]);
        i := i + 1;
      }
    }

    // ---------- Deposits and proxies ----------

    method PutDelegator(a: Address, d: Delegator)
      modifies this
      ensures kv == SetDelegator(old(kv), a, d)
    {
      kv := kv.(delegators := kv.delegators[a := d]);
    }

    method UpdateProxy(ctx: Context, d: Delegator, tokens: int) returns (ok: bool)
      requires ctx.Valid()
      modifies this
      ensures ok <==> StakingStore.UpdateProxy(old(kv), ctx, d, tokens).Some?
      ensures ok ==> kv == StakingStore.UpdateProxy(old(kv), ctx, d, tokens).value
    {
      hide StakingStore.UpdateShares;
      if d.proxy.None? {
        return true;
      }
      if d.proxy.value !in kv.delegators {
        return false;
      }
      var p := kv.delegators[d.proxy.value];
      p := p.(totalDelegated := p.totalDelegated + tokens);
      if p.totalDelegated < 0 {
        return false;
      }
      PutDelegator(d.proxy.value, p);
      ok := UpdateShares(ctx, d.proxy.value, p.totalDelegated + p.tokens);
    }

    method Delegate(ctx: Context, del: Address, amount: int) returns (ok: bool)
      requires ctx.Valid()
      modifies this
      ensures ok <==> Deposit(old(kv), ctx, del, amount).Some?
      ensures ok ==> kv == Deposit(old(kv), ctx, del, amount).value
      ensures ok && old(Valid(ctx)) ==> Valid(ctx)
    {
      hide StakingStore.UpdateShares, StakingStore.UpdateProxy, Inv;
      if Valid(ctx) && Deposit(kv, ctx, del, amount).Some? {
        DepositKeeps(kv, ctx, del, amount);
      }
      if amount < ctx.minDelegation || BalanceOf(kv, del) < amount {
        return false;
      }
      kv := kv.(balances := kv.balances[del := BalanceOf(kv, del) - amount], bonded := kv.bonded + amount);
      var d := if del in kv.delegators then kv.delegators[del] else NewDelegator();
      d := d.(tokens := d.tokens + amount);
      PutDelegator(del, d);
      if d.proxy.Some? {
        ok := UpdateProxy(ctx, d, amount);
      } else {
        ok := UpdateShares(ctx, del, if d.isProxy then d.tokens + d.totalDelegated else d.tokens);
      }
    }

    /** Coins to the not-bonded pool, and the undelegation record with its time key. */
    method RecordUndelegation(ctx: Context, del: Address, quantity: int) returns (ok: bool)
      modifies this
      ensures ok <==> Unbond(old(kv), ctx, del, quantity).Some?
      ensures ok ==> kv == Unbond(old(kv), ctx, del, quantity).value
    {
      if kv.bonded < quantity {
        return false;
      }
      kv := kv.(bonded := kv.bonded - quantity, notBonded := kv.notBonded + quantity);
      var u := Undelegation(quantity, ctx.completion);
      if del in kv.undelegations {
        kv := kv.(timeKeys := kv.timeKeys - {TimeKey(kv.undelegations[del].completion, del)});
        u := Undelegation(kv.undelegations[del].quantity + quantity, ctx.completion);
      }
      kv := kv.(undelegations := kv.undelegations[del := u], timeKeys := kv.timeKeys + {TimeKey(ctx.completion, del)});
      return true;
    }

    method WithdrawTokens(ctx: Context, del: Address, quantity: int) returns (ok: bool)
      requires ctx.Valid()
      modifies this
      ensures ok <==> Withdraw(old(kv), ctx, del, quantity).Some?
      ensures ok ==> kv == Withdraw(old(kv), ctx, del, quantity).value
      ensures ok && old(Valid(ctx)) ==> Valid(ctx)
    {
      hide StakingStore.UpdateShares, StakingStore.UpdateProxy, WithdrawLoop, Existing, Unbond, Inv;
      if Valid(ctx) && Withdraw(kv, ctx, del, quantity).Some? {
        WithdrawKeeps(kv, ctx, del, quantity);
      }
      if del !in kv.delegators {
        return false;
      }
      var d := kv.delegators[del];
      if quantity < ctx.minDelegation || d.tokens < quantity || (d.isProxy && d.tokens - quantity == 0) {
        return false;
      }
      ok := UpdateProxy(ctx, d, -quantity);
      if !ok {
        return;
      }
      if d.tokens - quantity == 0 {
        var vals := GetExisting(d.validators);
        WithdrawLastShares(ctx, del, vals, d.shares);
        if d.proxy.Some? {
          kv := kv.(bindings := kv.bindings - {Binding(d.proxy.value, del)});
        }
        kv := kv.(delegators := kv.delegators - {del});
      } else {
        d := d.(tokens := d.tokens - quantity);
        PutDelegator(del, d);
        if d.proxy.None? {
          ok := UpdateShares(ctx, del, if d.isProxy then d.tokens + d.totalDelegated else d.tokens);
          if !ok {
            return;
          }
        }
      }
      ok := RecordUndelegation(ctx, del, quantity);
    }

    method UnbindProxy(ctx: Context, del: Address) returns (ok: bool)
      requires ctx.Valid()
      modifies this
      ensures ok <==> Unbind(old(kv), ctx, del).Some?
      ensures ok ==> kv == Unbind(old(kv), ctx, del).value
      ensures ok && old(Valid(ctx)) ==> Valid(ctx)
    {
      hide StakingStore.UpdateProxy, Inv;
      if Valid(ctx) && Unbind(kv, ctx, del).Some? {
        UnbindKeeps(kv, ctx, del);
      }
      if del !in kv.delegators {
        return false;
      }
      var d := kv.delegators[del];
      if d.proxy.None? || d.proxy.value !in kv.delegators {
        return false;
      }
      ok := UpdateProxy(ctx, d, -d.tokens);
      if ok {
        PutDelegator(del, d.(proxy := None));
        kv := kv.(bindings := kv.bindings - {Binding(d.proxy.value, del)});
      }
    }

    method BindProxy(ctx: Context, del: Address, proxy: Address) returns (ok: bool)
      requires ctx.Valid()
      modifies this
      ensures ok <==> Bind(old(kv), ctx, del, proxy).Some?
      ensures ok ==> kv == Bind(old(kv), ctx, del, proxy).value
      ensures ok && old(Valid(ctx)) ==> Valid(ctx)
    {
      hide StakingStore.UpdateShares, Unbind, Inv;
      if Valid(ctx) && Bind(kv, ctx, del, proxy).Some? {
        BindKeeps(kv, ctx, del, proxy);
      }
      if del == proxy || del !in kv.delegators || kv.delegators[del].tokens == 0 || kv.delegators[del].shares != 0 {
        return false;
      }
      if proxy !in kv.delegators || kv.delegators[proxy].tokens == 0 || !kv.delegators[proxy].isProxy {
        return false;
      }
      var d, p := kv.delegators[del], kv.delegators[proxy];
      if d.isProxy {
        return false;
      }
      if d.proxy == Some(proxy) {
        ok := UpdateShares(ctx, proxy, p.totalDelegated + p.tokens);
        return;
      }
      if d.proxy.Some? {
        ok := UnbindProxy(ctx, del);
        if !ok {
          return;
        }
      }
      p := p.(totalDelegated := p.totalDelegated + d.tokens);
      PutDelegator(del, d.(proxy := Some(proxy), isProxy := false));
      PutDelegator(proxy, p);
      kv := kv.(bindings := kv.bindings + {Binding(proxy, del)});
      ok := UpdateShares(ctx, proxy, p.totalDelegated + p.tokens);
    }

    method RegisterProxy(ctx: Context, a: Address) returns (ok: bool)
      requires ctx.Valid()
      modifies this
      ensures ok <==> RegProxy(old(kv), ctx, a).Some?
      ensures ok ==> kv == RegProxy(old(kv), ctx, a).value
      ensures ok && old(Valid(ctx)) ==> Valid(ctx)
    {
      hide StakingStore.UpdateShares, Inv;
      if Valid(ctx) && RegProxy(kv, ctx, a).Some? {
        RegProxyKeeps(kv, ctx, a);
      }
      if a !in kv.delegators || kv.delegators[a].isProxy || kv.delegators[a].proxy.Some? {
        return false;
      }
      var d := kv.delegators[a];
      PutDelegator(a, d.(isProxy := true, proxy := None));
      ok := UpdateShares(ctx, a, d.tokens);
    }

    /** IterateProxy with ClearProxy's callback. */
    method FreeDelegators(proxy: Address)
      modifies this
      ensures kv == ClearProxy(old(kv), proxy)
    {
      hide SortedAddresses, BoundTo, ClearProxy, Freeing;
      var dels := SortedAddresses(BoundTo(kv, proxy));
      FreeingNone(kv, proxy);
      var i := 0;
      while i < |dels|
        invariant 0 <= i <= |dels|
        invariant Freeing(old(kv), kv, proxy, dels[..i])
      {
        var a := dels[i];
        FreeingNext(old(kv), kv, proxy, dels[..i], a);
        assert dels[..i + 1] == dels[..i] + [a];
        if a in kv.delegators {
          PutDelegator(a, kv.delegators[a].(proxy := None));
        }
        kv := kv.(bindings := kv.bindings - {Binding(proxy, a)});
        i := i + 1;
      }
      assert dels[..i] == dels;
      FreeingAll(old(kv), kv, proxy, dels);
    }

    method UnregisterProxy(ctx: Context, a: Address) returns (ok: bool)
      requires ctx.Valid()
      modifies this
      ensures ok <==> UnregProxy(old(kv), ctx, a).Some?
      ensures ok ==> kv == UnregProxy(old(kv), ctx, a).value
      ensures ok && old(Valid(ctx)) ==> Valid(ctx)
    {
      hide StakingStore.UpdateShares, ClearProxy, Inv;
      if Valid(ctx) && UnregProxy(kv, ctx, a).Some? {
        UnregProxyKeeps(kv, ctx, a);
      }
      if a !in kv.delegators || !kv.delegators[a].isProxy {
        return false;
      }
      var d := kv.delegators[a].(isProxy := false, totalDelegated := 0);
      FreeDelegators(a);
      PutDelegator(a, d);
      ok := UpdateShares(ctx, a, d.tokens);
    }

    // ---------- Validators ----------

    method Create(ctx: Context, a: Address, msd: nat) returns (ok: bool)
      requires ctx.Valid()
      modifies this
      ensures ok <==> CreateValidator(old(kv), ctx, a, msd).Some?
      ensures ok ==> kv == CreateValidator(old(kv), ctx, a, msd).value
      ensures ok && old(Valid(ctx)) ==> (Valid(ctx) <==> Unclaimed(old(kv), a))
    {
      hide Power, Reweigh, Inv;
      if Valid(ctx) && CreateValidator(kv, ctx, a, msd).Some? {
        CreateKeeps(kv, ctx, a, msd);
      }
      if a in kv.validators || msd < 500 * ONE {
        return false;
      }
      var v := Validator(a, false, Unbonded, 0, msd, 0);
      PutValidator(v);
      SetByPowerIndex(ctx, v);
      if BalanceOf(kv, a) < msd {
        return false;
      }
      kv := kv.(balances := kv.balances[a := BalanceOf(kv, a) - msd], bonded := kv.bonded + msd);
      Reindex(ctx, v, v.shares + ONE);
      return true;
    }

    /** WithdrawMinSelfDelegation. */
    method Destroy(ctx: Context, a: Address) returns (ok: bool)
      requires ctx.Valid()
      modifies this
      ensures ok <==> DestroyValidator(old(kv), ctx, a).Some?
      ensures ok ==> kv == DestroyValidator(old(kv), ctx, a).value
      ensures ok && old(Valid(ctx)) ==> Valid(ctx)
    {
      hide Power, Unbond, Inv;
      if Valid(ctx) && DestroyValidator(kv, ctx, a).Some? {
        DestroyKeeps(kv, ctx, a);
      }
      if a !in kv.validators || kv.validators[a].minSelfDelegation == 0 {
        return false;
      }
      var v := kv.validators[a];
      var remain := v.shares - ONE;
      if remain < 0 {
        return false;
      }
      ok := RecordUndelegation(ctx, a, v.minSelfDelegation);
      if !ok {
        return;
      }
      if v.status == Unbonded && remain == 0 {
        Remove(ctx, v.operator);
        return;
      }
      if v.status == Bonded {
        kv := kv.(abandoned := kv.abandoned + [v.operator]);
      }
      DeleteByPowerIndex(ctx, v);
      PutValidator(v.(minSelfDelegation := 0, jailed := true, shares := remain));
    }

    method JailValidator(ctx: Context, a: Address) returns (ok: bool)
      requires ctx.Valid()
      modifies this
      ensures ok <==> Jail(old(kv), ctx, a).Some?
      ensures ok ==> kv == Jail(old(kv), ctx, a).value
      ensures ok <==> a in old(kv).validators && !old(kv).validators[a].jailed
      ensures !ok ==> kv == old(kv)
      ensures ok && old(Valid(ctx)) ==>
                && Valid(ctx) && Jails(old(kv), kv, a, true)
                && (forall k :: k in kv.powerIndex <==> k in old(kv).powerIndex && k.operator != a)
    {
      hide Power, Inv;
      if Valid(ctx) && Jail(kv, ctx, a).Some? {
        JailKeeps(kv, ctx, a);
        JailExact(kv, ctx, a);
      }
      if a !in kv.validators || kv.validators[a].jailed {
        return false;
      }
      var v := kv.validators[a].(jailed := true);
      PutValidator(v);
      DeleteByPowerIndex(ctx, v);
      return true;
    }

    method UnjailValidator(ctx: Context, a: Address) returns (ok: bool)
      requires ctx.Valid()
      modifies this
      ensures ok <==> Unjail(old(kv), ctx, a).Some?
      ensures ok ==> kv == Unjail(old(kv), ctx, a).value
      ensures ok <==> a in old(kv).validators && old(kv).validators[a].jailed
      ensures !ok ==> kv == old(kv)
      ensures ok && old(Valid(ctx)) ==>
                && Jails(old(kv), kv, a, false)
                && (forall k :: k in kv.powerIndex <==>
                      k in old(kv).powerIndex || k == PowerKey(Power(ctx, old(kv).validators[a].shares), a))
                && (Valid(ctx) <==> old(kv).validators[a].minSelfDelegation != 0)
    {
      hide Power, Inv;
      if Valid(ctx) && Unjail(kv, ctx, a).Some? {
        UnjailKeeps(kv, ctx, a);
        UnjailExact(kv, ctx, a);
      }
      if a !in kv.validators || !kv.validators[a].jailed {
        return false;
      }
      var v := kv.validators[a].(jailed := false);
      PutValidator(v);
      SetByPowerIndex(ctx, v);
      return true;
    }

    // ---------- The handler ----------

    method Dispatch(ctx: Context, m: Message) returns (ok: bool)
      requires ctx.Valid()
      modifies this
      ensures ok <==> Handle(old(kv), ctx, m).Some?
      ensures ok ==> kv == Handle(old(kv), ctx, m).value
    {
      hide Deposit, Withdraw, StakingStore.AddShares, Bind, Unbind, RegProxy, UnregProxy, CreateValidator,
        DestroyValidator, Jail, Unjail;
      match m
      case MsgDeposit(a, amount) => ok := Delegate(ctx, a, amount);
      case MsgWithdraw(a, amount) => ok := WithdrawTokens(ctx, a, amount);
      case MsgAddShares(a, targets) => ok := AddShares(ctx, a, targets);
      case MsgBindProxy(a, proxy) => ok := BindProxy(ctx, a, proxy);
      case MsgUnbindProxy(a) => ok := UnbindProxy(ctx, a);
      case MsgRegProxy(a, reg) => if reg { ok := RegisterProxy(ctx, a); } else { ok := UnregisterProxy(ctx, a); }
      case MsgCreateValidator(a, msd) => ok := Create(ctx, a, msd);
      case MsgDestroyValidator(a) => ok := Destroy(ctx, a);
      case Jailing(a) => ok := JailValidator(ctx, a);
      case Unjailing(a) => ok := UnjailValidator(ctx, a);
    }

    /** A transaction: what a failed handler has written is discarded. */
    method DeliverMessage(ctx: Context, m: Message) returns (ok: bool)
      requires ctx.Valid()
      modifies this
      ensures Do(old(kv), Deliver(ctx, m)) == Ok(kv)
      ensures ok <==> Handle(old(kv), ctx, m).Some?
      ensures old(Valid(ctx)) && Sound(old(kv), m) ==> Valid(ctx)
      ensures old(Valid(ctx)) ==> (ok <==> !Refused(old(kv), ctx, m)) && (ok ==> Frames(old(kv), kv, m))
    {
      hide Handle, Inv, Sound, Refused, Frames;
      if Valid(ctx) {
        MessageFails(kv, ctx, m);
        if Handle(kv, ctx, m).Some? {
          MessageKeeps(kv, ctx, m);
          HandledFrames(kv, ctx, m);
        }
      }
      var before := kv;
      ok := Dispatch(ctx, m);
      if !ok {
        kv := before;
      }
    }
  }
}
