/** Withdrawing a delegator's shares from its old validators and adding them to new ones. */
module ShareMoves {
  import opened EvmTypes
  import opened Coins
  import opened Sums
  import opened StakingStore
  import opened StakingInvariants
  import opened ShareUpdates

  // ---------- AddSharesToValidators ----------

  lemma {:induction false} AddLoopSteady(st: Store, ctx: Context, del: Address, vals: seq<Validator>, shares: int)
    requires ctx.Valid() && Steady(st, ctx) && Current(st, vals) && HoldsAll(st.shares, vals, del, 0)
    ensures
      var r := AddLoop(st, ctx, del, vals, shares);
      && Steady(r, ctx) && Reshares(st, r) && SameKeys(st, r)
      && Given(st.shares, vals, del, shares, r.shares)
    decreases |vals|
  {
    hide Steady, Reshares, ShareSum, Given, Reweigh;
    if vals == [] {
      UpdateLoopEmpty(st, del, shares);
    } else {
      var v := vals[0];
      var k := ShareKey(v.operator, del);
      var entries := st.shares[k := shares];
      forall a
        ensures ShareSum(entries, a) == ShareSum(st.shares, a) + if a == v.operator then shares else 0
      {
        EntriesUpdate(st.shares, k, shares, a);
      }
      ReweighSteady(st, ctx, v, v.shares + shares, entries);
      var st1 := Reweigh(st.(shares := entries), ctx, v, v.shares + shares);
      AddLoopSteady(st1, ctx, del, vals[1..], shares);
      var r := AddLoop(st1, ctx, del, vals[1..], shares);
      ResharesTransitive(st, st1, r);
      GivenFirst(st.shares, entries, vals, del, shares, r.shares);
    }
  }

  // ---------- WithdrawLastShares ----------

  /** No entry is negative, and those on missing validators are zero. */
  ghost predicate Housed(st: Store) {
    forall k :: ShareAt(st.shares, k) >= 0 && (k.validator !in st.validators ==> ShareAt(st.shares, k) == 0)
  }

  lemma WithdrawOneSteady(st: Store, ctx: Context, del: Address, v: Validator, shares: int)
    requires ctx.Valid() && Steady(st, ctx) && Housed(st)
    requires v.operator in st.validators && st.validators[v.operator] == v
    requires ShareAt(st.shares, ShareKey(v.operator, del)) == shares
    ensures
      var r := WithdrawOne(st, ctx, del, v, shares);
      && Steady(r, ctx) && Housed(r) && Reshares(st, r) && r.delegators == st.delegators
      && r.shares == st.shares - {ShareKey(v.operator, del)}
      && (forall a :: a != v.operator && a in st.validators ==> a in r.validators && r.validators[a] == st.validators[a])
  {
    hide Steady, ShareSum, RemoveValidator, Reweigh, Reshares, DeleteIndex;
    var k := ShareKey(v.operator, del);
    var entries := st.shares - {k};
    forall a
      ensures ShareSum(entries, a) == ShareSum(st.shares, a) - if a == v.operator then shares else 0
    {
      EntriesRemove(st.shares, k, a);
    }
    ReweighSteady(st, ctx, v, v.shares - shares, entries);
    TakenAt(st.shares, k);
    HousedTaken(st, entries, k);
    if v.status == Unbonded && v.minSelfDelegation == 0 && v.shares - shares == 0 {
      WithdrawRemoves(st, ctx, v, entries);
      RemovedHoused(st, ctx, v, entries);
    }
  }

  lemma TakenAt(shares: map<ShareKey, int>, k: ShareKey)
    ensures forall j :: ShareAt(shares - {k}, j) == if j == k then 0 else ShareAt(shares, j)
  {
  }

  lemma HousedTaken(st: Store, entries: map<ShareKey, int>, k: ShareKey)
    requires Housed(st) && forall j :: ShareAt(entries, j) == if j == k then 0 else ShareAt(st.shares, j)
    ensures forall j :: ShareAt(entries, j) >= 0 && (j.validator !in st.validators ==> ShareAt(entries, j) == 0)
  {
    forall j
      ensures ShareAt(entries, j) >= 0 && (j.validator !in st.validators ==> ShareAt(entries, j) == 0)
    {
      assert ShareAt(st.shares, j) >= 0 && (j.validator !in st.validators ==> ShareAt(st.shares, j) == 0);
    }
  }

  lemma RemovedHoused(st: Store, ctx: Context, v: Validator, entries: map<ShareKey, int>)
    requires ctx.Valid() && v.operator in st.validators && st.validators[v.operator] == v
    requires v.status == Unbonded && v.minSelfDelegation == 0 && ShareSum(entries, v.operator) == 0
    requires forall k :: ShareAt(entries, k) >= 0 && (k.validator !in st.validators ==> ShareAt(entries, k) == 0)
    ensures
      var r := RemoveValidator(DeleteIndex(st.(shares := entries), ctx, v), ctx, v.operator);
      && Housed(r) && Reshares(st, r) && r.delegators == st.delegators && r.shares == entries
      && r.validators == st.validators - {v.operator}
  {
    hide ShareSum, Power;
    var r := RemoveValidator(DeleteIndex(st.(shares := entries), ctx, v), ctx, v.operator);
    forall j
      ensures ShareAt(r.shares, j) >= 0 && (j.validator !in r.validators ==> ShareAt(r.shares, j) == 0)
    {
      NoEntries(entries, v.operator, j);
      assert ShareAt(entries, j) >= 0 && (j.validator !in st.validators ==> ShareAt(entries, j) == 0);
    }
  }

  /** Removing a destroyed validator whose last entry has gone. */
  lemma WithdrawRemoves(st: Store, ctx: Context, v: Validator, entries: map<ShareKey, int>)
    requires ctx.Valid() && Steady(st, ctx) && v.operator in st.validators && st.validators[v.operator] == v
    requires v.minSelfDelegation == 0
    requires forall a :: a != v.operator ==> ShareSum(entries, a) == ShareSum(st.shares, a)
    requires v.shares == ShareSum(st.shares, v.operator) - ShareSum(entries, v.operator)
    ensures ShareSum(entries, v.operator) == 0
    ensures Steady(RemoveValidator(DeleteIndex(st.(shares := entries), ctx, v), ctx, v.operator), ctx)
  {
    hide Power, ShareSum;
    var r := RemoveValidator(DeleteIndex(st.(shares := entries), ctx, v), ctx, v.operator);
    assert SharesAt(st, v.operator);
    forall k
      ensures k in r.powerIndex <==> Indexes(r, ctx, k)
    {
      assert k in st.powerIndex <==> Indexes(st, ctx, k);
    }
    forall a | a in r.validators
      ensures SharesAt(r, a)
    {
      assert SharesAt(st, a);
    }
  }

  lemma {:induction false} WithdrawLoopSteady(st: Store, ctx: Context, del: Address, vals: seq<Validator>, shares: int)
    requires ctx.Valid() && Steady(st, ctx) && Housed(st) && Current(st, vals) && HoldsAll(st.shares, vals, del, shares)
    ensures
      var r := WithdrawLoop(st, ctx, del, vals, shares);
      && Steady(r, ctx) && Housed(r) && Reshares(st, r) && r.delegators == st.delegators
      && Given(st.shares, vals, del, 0, r.shares)
    decreases |vals|
  {
    hide Steady, Reshares, Housed, Given, WithdrawOne;
    if vals == [] {
      UpdateLoopEmpty(st, del, 0);
    } else {
      WithdrawOneSteady(st, ctx, del, vals[0], shares);
      var st1 := WithdrawOne(st, ctx, del, vals[0], shares);
      WithdrawLoopSteady(st1, ctx, del, vals[1..], shares);
      var r := WithdrawLoop(st1, ctx, del, vals[1..], shares);
      ResharesTransitive(st, st1, r);
      TakenAt(st.shares, ShareKey(vals[0].operator, del));
      GivenFirst(st.shares, st1.shares, vals, del, 0, r.shares);
    }
  }

  lemma SharesHoused(st: Store)
    requires SharesOk(st)
    ensures Housed(st)
  {
    hide ShareTotalsOk;
    forall k
      ensures ShareAt(st.shares, k) >= 0 && (k.validator !in st.validators ==> ShareAt(st.shares, k) == 0)
    {
      assert ShareAt(st.shares, k) == Recorded(st, k);
      assert k.delegator in st.delegators ==> ListOk(st.delegators[k.delegator]);
    }
  }

  /** Withdrawing a delegator's last shares leaves it without shares anywhere and every other
      delegator's untouched. */
  lemma WithdrawSharesKeeps(st: Store, ctx: Context, del: Address)
    requires ctx.Valid() && Steady(st, ctx) && SharesOk(st) && del in st.delegators
    ensures
      var d := st.delegators[del];
      var r := WithdrawLoop(st, ctx, del, Existing(st, d.validators), d.shares);
      && Steady(r, ctx) && Housed(r) && Reshares(st, r) && r.delegators == st.delegators
      && OthersOk(r, del)
      && (forall k :: ShareAt(r.shares, k) == if k.delegator == del then 0 else ShareAt(st.shares, k))
  {
    hide Given, WithdrawLoop, IndexOk, ShareTotalsOk, Has, Reshares, Housed, SharesOk, Current, HoldsAll;
    var d := st.delegators[del];
    var vals := Existing(st, d.validators);
    SharesHoused(st);
    ListedHeld(st, del);
    WithdrawLoopSteady(st, ctx, del, vals, d.shares);
    var r := WithdrawLoop(st, ctx, del, vals, d.shares);
    AllTaken(st, r, del, vals);
    SharesOkOthers(st, del);
    forall k: ShareKey | k.delegator != del
      ensures ShareAt(r.shares, k) == Recorded(r, k)
    {
      assert ShareAt(st.shares, k) == Recorded(st, k);
      HousedAt(r, k);
      ResharesSubset(st, r);
    }
  }

  lemma AllTaken(st: Store, r: Store, del: Address, vals: seq<Validator>)
    requires Given(st.shares, vals, del, 0, r.shares)
    requires forall k: ShareKey :: k.delegator == del && !Has(vals, k.validator) ==> ShareAt(st.shares, k) == 0
    ensures forall k :: ShareAt(r.shares, k) == if k.delegator == del then 0 else ShareAt(st.shares, k)
  {
    hide Has;
    forall k
      ensures ShareAt(r.shares, k) == if k.delegator == del then 0 else ShareAt(st.shares, k)
    {
      assert ShareAt(r.shares, k) == if k.delegator == del && Has(vals, k.validator) then 0 else ShareAt(st.shares, k);
    }
  }

  lemma HousedAt(st: Store, k: ShareKey)
    requires Housed(st)
    ensures k.validator !in st.validators ==> ShareAt(st.shares, k) == 0
  {
    assert ShareAt(st.shares, k) >= 0;
  }

  lemma ResharesSubset(st: Store, r: Store)
    requires Reshares(st, r)
    ensures forall a :: a in r.validators ==> a in st.validators
  {
  }

  /** A delegator without shares anywhere can go. */
  lemma WithdrawnSharesOk(st: Store, del: Address)
    requires OthersOk(st, del) && ShareTotalsOk(st) && (forall k: ShareKey :: k.delegator == del ==> ShareAt(st.shares, k) == 0)
    ensures SharesOk(st.(delegators := st.delegators - {del}))
  {
    hide ShareSum;
    var r := st.(delegators := st.delegators - {del});
    forall a | a in r.validators
      ensures SharesAt(r, a)
    {
      assert SharesAt(st, a);
    }
    forall k
      ensures ShareAt(r.shares, k) == Recorded(r, k)
    {
      assert k.delegator != del ==> ShareAt(st.shares, k) == Recorded(st, k);
    }
  }

  // ---------- MsgAddShares ----------

  /** Adding shares keeps the share invariant and moves the delegator to exactly the targets. */
  lemma AddSharesKeeps(st: Store, ctx: Context, del: Address, targets: seq<Address>)
    requires ctx.Valid() && Steady(st, ctx) && SharesOk(st)
    requires del in st.delegators ==> st.delegators[del].tokens + st.delegators[del].totalDelegated >= 0
    requires AddShares(st, ctx, del, targets).Some?
    ensures
      var r := AddShares(st, ctx, del, targets).value;
      && del in st.delegators && st.delegators[del].proxy.None?
      && Steady(r, ctx) && SharesOk(r) && Reshares(st, r)
      && exists x :: r.delegators == st.delegators[del := st.delegators[del].(validators := targets, shares := x)]
  {
    hide Given, WithdrawLoop, AddLoop, IndexOk, ShareTotalsOk, Has, SharesOk, OthersOk, Reshares, Weigh, Housed, Unfit;
    var d := st.delegators[del];
    WithdrawSharesKeeps(st, ctx, del);
    var st1 := WithdrawLoop(st, ctx, del, Existing(st, d.validators), d.shares);
    ExistingMeans(st1, targets);
    var vals := Existing(st1, targets);
    var shares := Weigh(ctx, d.tokens + d.totalDelegated);
    WeighNonNegative(ctx, d.tokens + d.totalDelegated);
    assert HoldsAll(st1.shares, vals, del, 0);
    AddLoopSteady(st1, ctx, del, vals, shares);
    var st2 := AddLoop(st1, ctx, del, vals, shares);
    ResharesTransitive(st, st1, st2);
    var d' := d.(validators := targets, shares := shares);
    GivenSharesOk(st1, st2, del, vals, d');
    SetDelegatorSteady(st2, ctx, del, d');
    ResharesSet(st, st2, del, d');
    assert AddShares(st, ctx, del, targets) == Some(SetDelegator(st2, del, d'));
    assert SetDelegator(st2, del, d').delegators == st.delegators[del := d'];
  }

  lemma ResharesSet(st: Store, r: Store, del: Address, d: Delegator)
    requires Reshares(st, r)
    ensures Reshares(st, SetDelegator(r, del, d))
  {
  }
}
