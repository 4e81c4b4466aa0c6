/** Withdrawing tokens and adding shares keep the invariant. */
module DelegatorMessages {
  import opened EvmTypes
  import opened Coins
  import opened Sums
  import opened StakingStore
  import opened StakingInvariants
  import opened ShareUpdates
  import opened ShareMoves
  import opened Proxies
  import opened StakingMessages
  import opened ProxyMessages

  // ---------- Undelegations ----------

  /** The pool always covers what is released, and recording it restores the invariant. */
  lemma UnbondKeeps(st: Store, ctx: Context, del: Address, quantity: int)
    requires ctx.Valid() && Releasing(st, ctx, quantity) && quantity > 0
    ensures Unbond(st, ctx, del, quantity).Some? && Inv(Unbond(st, ctx, del, quantity).value, ctx)
    ensures Unbond(st, ctx, del, quantity).value.validators == st.validators
  {
    hide ValidatorsOk, SharesOk, DelegatorsOk, Sum, Tokens, SelfDelegations, Quantities, ShareTotalsOk, SameLists,
      UndelegationsOk;
    StakesNonNegative(st);
    var r := Unbond(st, ctx, del, quantity).value;
    SharesOkOthers(st, del);
    SameSetKeeps(st, r, ctx);
    ListsSame(st.delegators);
    SharesFrame(st, r);
    UnbondBooks(st, r);
    UnbondRecords(st, ctx, del, quantity);
  }

  lemma ListsSame(ds: map<Address, Delegator>)
    ensures SameLists(ds, ds)
  {
  }

  lemma UnbondBooks(st: Store, r: Store)
    requires DelegatorsOk(st) && r.delegators == st.delegators && r.bindings == st.bindings
    ensures DelegatorsOk(r)
  {
    hide BoundTokens;
    forall b
      ensures b in r.bindings <==> Binds(r, b)
    {
      assert b in st.bindings <==> Binds(st, b);
    }
    forall a | a in r.delegators
      ensures DelegatorOk(r, a) && ProxyTotalOk(r, a)
    {
      assert DelegatorOk(st, a) && ProxyTotalOk(st, a);
    }
  }

  lemma StakesNonNegative(st: Store)
    requires DelegatorsOk(st)
    ensures Sum(SelfDelegations(st.validators)) >= 0 && Sum(Tokens(st.delegators)) >= 0
  {
    forall a | a in st.delegators
      ensures Tokens(st.delegators)[a] >= 0
    {
      assert DelegatorOk(st, a);
    }
    SumNonNegative(Tokens(st.delegators));
    SumNonNegative(SelfDelegations(st.validators));
  }

  /** The record grows by the quantity and its one time key moves to the new time. */
  lemma UnbondRecords(st: Store, ctx: Context, del: Address, quantity: int)
    requires UndelegationsOk(st) && quantity > 0 && st.bonded >= quantity
    ensures
      var r := Unbond(st, ctx, del, quantity).value;
      UndelegationsOk(r) && Sum(Quantities(r.undelegations)) == Sum(Quantities(st.undelegations)) + quantity
  {
    hide Sum;
    var r := Unbond(st, ctx, del, quantity).value;
    forall k
      ensures k in r.timeKeys <==> Keyed(r, k)
    {
      assert k in st.timeKeys <==> Keyed(st, k);
    }
    var q := Quantities(st.undelegations);
    SumUpdate(q, del, r.undelegations[del].quantity);
    assert Quantities(r.undelegations) == q[del := r.undelegations[del].quantity];
  }

  // ---------- Withdraw ----------

  /** What UpdateProxy leaves for the rest of a withdrawal: the store as it was, up to shares
      and the total of del's proxy. */
  ghost predicate ProxyTold(st: Store, s: Store, ctx: Context, del: Address, quantity: int)
    requires ctx.Valid() && del in st.delegators
  {
    var d := st.delegators[del];
    && Steady(s, ctx) && SharesOk(s) && Reshares(st, s)
    && (d.proxy.None? ==> s == st)
    && (d.proxy.Some? ==>
          && d.proxy.value in st.delegators && d.proxy.value != del
          && Reweighs(Retotalled(st.delegators, d.proxy.value, -quantity), s.delegators, d.proxy.value))
  }

  lemma ProxyToldAfter(st: Store, ctx: Context, del: Address, quantity: int)
    requires ctx.Valid() && Inv(st, ctx) && del in st.delegators && quantity <= st.delegators[del].tokens
    requires UpdateProxy(st, ctx, st.delegators[del], -quantity).Some?
    ensures ProxyTold(st, UpdateProxy(st, ctx, st.delegators[del], -quantity).value, ctx, del, quantity)
  {
    hide ValidatorsOk, SharesOk, DelegatorsOk, PoolsOk, UndelegationsOk, Reweighs, UpdateShares, Steady, Reshares,
      Retotalled;
    if st.delegators[del].proxy.Some? {
      UpdateProxyKeeps(st, ctx, del, -quantity);
    } else {
      InvSteady(st, ctx);
      UpdateLoopEmpty(st, del, 0);
    }
  }

  /** Leaving with everything. */
  lemma LeaveKeeps(st: Store, s: Store, ctx: Context, del: Address)
    requires ctx.Valid() && Inv(st, ctx) && del in st.delegators && !st.delegators[del].isProxy
    requires ProxyTold(st, s, ctx, del, st.delegators[del].tokens)
    ensures Releasing(Leave(s, ctx, del, st.delegators[del]), ctx, st.delegators[del].tokens)
    ensures StatusKept(st.validators, Leave(s, ctx, del, st.delegators[del]).validators)
  {
    hide ValidatorsOk, SharesOk, DelegatorsOk, UndelegationsOk, Reweighs, Steady, Reshares, WithdrawLoop, Sum, Tokens,
      SelfDelegations, Quantities, OthersOk, ShareTotalsOk;
    var d := st.delegators[del];
    ToldRecord(st, s, ctx, del, d.tokens);
    WithdrawSharesKeeps(s, ctx, del);
    var w := WithdrawLoop(s, ctx, del, Existing(s, d.validators), d.shares);
    ResharesTransitive(st, s, w);
    ResharesRest(st, w);
    ResharesStatus(st, w);
    ResharesPools(st, w);
    ResharesValidators(st, w, ctx);
    SteadyTotals(w, ctx);
    var r := Leave(s, ctx, del, d);
    SameSetKeeps(w, r, ctx);
    WithdrawnSharesOk(w, del);
    LeftShares(w, r, del);
    ResharesUndelegations(st, r);
    LeftBooks(st, s, r, ctx, del);
  }

  lemma SteadyTotals(st: Store, ctx: Context)
    requires ctx.Valid() && Steady(st, ctx)
    ensures ShareTotalsOk(st)
  {
  }

  lemma ToldRecord(st: Store, s: Store, ctx: Context, del: Address, quantity: int)
    requires ctx.Valid() && del in st.delegators && ProxyTold(st, s, ctx, del, quantity)
    ensures del in s.delegators && s.delegators[del] == st.delegators[del]
  {
    hide Steady, SharesOk, Reshares;
  }

  lemma LeftShares(w: Store, r: Store, del: Address)
    requires SharesOk(w.(delegators := w.delegators - {del}))
    requires r.validators == w.validators && r.shares == w.shares && r.delegators == w.delegators - {del}
    ensures SharesOk(r)
  {
    hide SharesOk, SameLists;
    ListsSame(w.delegators - {del});
    SharesFrame(w.(delegators := w.delegators - {del}), r);
  }

  lemma LeftBooks(st: Store, s: Store, r: Store, ctx: Context, del: Address)
    requires ctx.Valid() && DelegatorsOk(st) && del in st.delegators && !st.delegators[del].isProxy
    requires ProxyTold(st, s, ctx, del, st.delegators[del].tokens)
    requires r.delegators == s.delegators - {del}
    requires r.bindings == if st.delegators[del].proxy.Some? then st.bindings - {Binding(st.delegators[del].proxy.value, del)} else st.bindings
    ensures DelegatorsOk(r) && Sum(Tokens(r.delegators)) == Sum(Tokens(st.delegators)) - st.delegators[del].tokens
  {
    hide DelegatorsOk, Sum, Tokens, SharesOk, Steady, Reshares, ProxyTotalOk, BoundTokens, Reweighs;
    var d := st.delegators[del];
    DelegatorOfBooks(st, del);
    if d.proxy.Some? {
      var p := d.proxy.value;
      var b := Rebooked(st, del, None, p, -d.tokens);
      ProxyCovers(st, del);
      RebookedKeeps(st, del, None, -d.tokens);
      RebookedTokens(st, del, None, p, -d.tokens);
      ReweighsRemove(Retotalled(st.delegators, p, -d.tokens), s.delegators, p, del);
      ReweighsDelegators(b, r, p);
      ReweighsTokens(b, r, p);
    } else {
      TokensRemove(st.delegators, del);
      assert Succeeds(st, r, del);
      assert BindingsFollow(st, r, del);
      RebookKeeps(st, r, del);
    }
  }

  lemma ReweighsRemove(ds: map<Address, Delegator>, ds': map<Address, Delegator>, p: Address, del: Address)
    requires Reweighs(ds, ds', p) && p != del
    ensures Reweighs(ds - {del}, ds' - {del}, p)
  {
    if ds' != ds {
      var x :| ds' == ds[p := ds[p].(shares := x)];
      assert ds' - {del} == (ds - {del})[p := (ds - {del})[p].(shares := x)];
    }
  }

  /** Staying with some tokens. */
  lemma StayKeeps(st: Store, s: Store, ctx: Context, del: Address, quantity: int)
    requires ctx.Valid() && Inv(st, ctx) && del in st.delegators && 0 < quantity < st.delegators[del].tokens
    requires ProxyTold(st, s, ctx, del, quantity)
    requires Stay(s, ctx, del, st.delegators[del].(tokens := st.delegators[del].tokens - quantity)).Some?
    ensures
      Releasing(Stay(s, ctx, del, st.delegators[del].(tokens := st.delegators[del].tokens - quantity)).value, ctx, quantity)
    ensures
      StatusKept(st.validators, Stay(s, ctx, del, st.delegators[del].(tokens := st.delegators[del].tokens - quantity)).value.validators)
  {
    hide ValidatorsOk, SharesOk, DelegatorsOk, UndelegationsOk, Reweighs, Steady, Reshares, UpdateShares, Sum, Tokens,
      SelfDelegations, Quantities, BoundTokens;
    var d := st.delegators[del];
    var d' := d.(tokens := d.tokens - quantity);
    if d.proxy.Some? {
      ReplacedKeeps(st, ctx, s, del, d', -quantity);
      ResharesRest(st, s);
      ResharesStatus(st, s);
      assert SetDelegator(s, del, d').(bindings := st.bindings) == SetDelegator(s, del, d');
    } else {
      var x := SetDelegator(st, del, d');
      ReducedKeeps(st, ctx, del, quantity);
      TotalNonNegative(x, del);
      UpdateSharesReleasing(x, ctx, del, Weighed(d'), quantity);
    }
  }

  lemma ReducedKeeps(st: Store, ctx: Context, del: Address, quantity: int)
    requires ctx.Valid() && Inv(st, ctx) && del in st.delegators && 0 < quantity < st.delegators[del].tokens
    requires st.delegators[del].proxy.None?
    ensures Releasing(SetDelegator(st, del, st.delegators[del].(tokens := st.delegators[del].tokens - quantity)), ctx, quantity)
  {
    hide ValidatorsOk, SharesOk, DelegatorsOk, UndelegationsOk, Sum, Tokens, SelfDelegations, Quantities, BoundTokens,
      ProxyTotalOk, ShareTotalsOk;
    var r := SetDelegator(st, del, st.delegators[del].(tokens := st.delegators[del].tokens - quantity));
    InvTotals(st, ctx);
    SameSetKeeps(st, r, ctx);
    SharesFrame(st, r);
    ResharesUndelegations(st, r);
    TokensUpdate(st.delegators, del, r.delegators[del]);
    DelegatorOfBooks(st, del);
    assert BindingsFollow(st, r, del);
    RebookKeeps(st, r, del);
  }

  /** MsgWithdraw keeps the invariant. */
  lemma WithdrawKeeps(st: Store, ctx: Context, del: Address, quantity: int)
    requires ctx.Valid() && Inv(st, ctx) && Withdraw(st, ctx, del, quantity).Some?
    ensures Inv(Withdraw(st, ctx, del, quantity).value, ctx)
    ensures StatusKept(st.validators, Withdraw(st, ctx, del, quantity).value.validators)
  {
    hide Inv, UpdateProxy, Leave, Stay, Unbond, ProxyTold, Releasing;
    var d := st.delegators[del];
    ProxyToldAfter(st, ctx, del, quantity);
    var s := UpdateProxy(st, ctx, d, -quantity).value;
    if d.tokens == quantity {
      LeaveKeeps(st, s, ctx, del);
      UnbondKeeps(Leave(s, ctx, del, d), ctx, del, quantity);
    } else {
      StayKeeps(st, s, ctx, del, quantity);
      UnbondKeeps(Stay(s, ctx, del, d.(tokens := d.tokens - quantity)).value, ctx, del, quantity);
    }
  }

  // ---------- AddShares ----------

  /** MsgAddShares keeps the invariant. */
  lemma AddSharesInv(st: Store, ctx: Context, del: Address, targets: seq<Address>)
    requires ctx.Valid() && Inv(st, ctx) && AddShares(st, ctx, del, targets).Some?
    ensures Inv(AddShares(st, ctx, del, targets).value, ctx)
    ensures StatusKept(st.validators, AddShares(st, ctx, del, targets).value.validators)
  {
    hide ValidatorsOk, SharesOk, DelegatorsOk, UndelegationsOk, Reshares, Steady, AddShares, Sum, Tokens, SelfDelegations,
      Quantities, BoundTokens, Weigh, ProxyTotalOk;
    var r := AddShares(st, ctx, del, targets).value;
    InvSteady(st, ctx);
    if del in st.delegators {
      TotalNonNegative(st, del);
    }
    AddSharesKeeps(st, ctx, del, targets);
    ResharesValidators(st, r, ctx);
    ResharesPools(st, r);
    ResharesRest(st, r);
    ResharesStatus(st, r);
    ResharesUndelegations(st, r);
    TokensUpdate(st.delegators, del, r.delegators[del]);
    DelegatorOfBooks(st, del);
    assert BindingsFollow(st, r, del);
    RebookKeeps(st, r, del);
  }
}
