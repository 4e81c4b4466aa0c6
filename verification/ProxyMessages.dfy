/** Binding, unbinding, registering and unregistering proxies, and withdrawing. */
module ProxyMessages {
  import opened EvmTypes
  import opened Coins
  import opened Sums
  import opened StakingStore
  import opened StakingInvariants
  import opened ShareUpdates
  import opened ShareMoves
  import opened Proxies
  import opened StakingMessages

  /** The delegators with a proxy's total moved by delta. */
  function Retotalled(ds: map<Address, Delegator>, p: Address, delta: int): map<Address, Delegator>
    requires p in ds
  {
    ds[p := ds[p].(totalDelegated := ds[p].totalDelegated + delta)]
  }

  lemma RetotalledLists(ds: map<Address, Delegator>, p: Address, delta: int)
    requires p in ds
    ensures SameLists(ds, Retotalled(ds, p, delta))
  {
  }

  /** UpdateProxy never finds a negative total; it fails exactly when the proxy lists a
      destroyed validator. */
  lemma UpdateProxyKeeps(st: Store, ctx: Context, del: Address, delta: int)
    requires ctx.Valid() && Inv(st, ctx)
    requires del in st.delegators && st.delegators[del].proxy.Some? && -st.delegators[del].tokens <= delta
    ensures
      var p := st.delegators[del].proxy.value;
      var r := UpdateProxy(st, ctx, st.delegators[del], delta);
      && p in st.delegators && p != del
      && (r.None? <==> Dismissed(st, st.delegators[p].validators))
      && (r.Some? ==>
            && Steady(r.value, ctx) && SharesOk(r.value) && Reshares(st, r.value)
            && r.value.validators.Keys == st.validators.Keys
            && Reweighs(Retotalled(st.delegators, p, delta), r.value.delegators, p))
  {
    hide ValidatorsOk, SharesOk, DelegatorsOk, PoolsOk, UndelegationsOk, Steady, UpdateShares, Weigh, Reweighs, Dismissed,
      SameLists, ShareTotalsOk, Reshares;
    ProxyCovers(st, del);
    var p := st.delegators[del].proxy.value;
    TotalNonNegative(st, p);
    var s := st.(delegators := Retotalled(st.delegators, p, delta));
    InvTotals(st, ctx);
    SameSetKeeps(st, s, ctx);
    RetotalledLists(st.delegators, p, delta);
    SharesFrame(st, s);
    UpdateSharesKeeps(s, ctx, p, s.delegators[p].totalDelegated + s.delegators[p].tokens);
    DismissedSame(st, s, s.delegators[p].validators);
    var r := UpdateShares(s, ctx, p, s.delegators[p].totalDelegated + s.delegators[p].tokens);
    assert UpdateProxy(st, ctx, st.delegators[del], delta) == r;
    if r.Some? {
      ResharesFrom(st, s, r.value);
    }
  }

  lemma DismissedSame(st: Store, r: Store, vs: seq<Address>)
    requires r.validators == st.validators
    ensures Dismissed(st, vs) <==> Dismissed(r, vs)
  {
  }

  lemma ResharesFrom(st: Store, s: Store, r: Store)
    requires s == st.(delegators := s.delegators) && Reshares(s, r)
    ensures Reshares(st, r)
  {
  }

  /** The books after del, bound to a proxy, changes or goes and the proxy's total follows. */
  function Rebooked(st: Store, del: Address, d: Option<Delegator>, p: Address, delta: int): Store
    requires p in st.delegators
  {
    var ds := Retotalled(st.delegators, p, delta);
    st.(delegators := if d.Some? then ds[del := d.value] else ds - {del},
        bindings := if d.Some? && d.value.proxy.Some? then st.bindings else st.bindings - {Binding(p, del)})
  }

  lemma RebookedKeeps(st: Store, del: Address, d: Option<Delegator>, delta: int)
    requires DelegatorsOk(st) && del in st.delegators && st.delegators[del].proxy.Some?
    requires
      var was := st.delegators[del];
      || (d == None && delta == -was.tokens)
      || (d == Some(was.(proxy := None)) && delta == -was.tokens)
      || (d == Some(was.(tokens := was.tokens + delta)) && was.tokens + delta > 0)
    ensures
      var p := st.delegators[del].proxy.value;
      p in st.delegators && DelegatorsOk(Rebooked(st, del, d, p, delta))
  {
    hide DelegatorsOk, ProxyTotalOk, Rebooks, TotalsFollow, BindingsFollow, Rebooked, Succeeds;
    ProxyCovers(st, del);
    var p := st.delegators[del].proxy.value;
    var r := Rebooked(st, del, d, p, delta);
    DelegatorOfBooks(st, del);
    RebookedTotals(st, del, d, p, delta);
    RebookedBindings(st, del, d, p, delta);
    RebookKeeps(st, r, del);
  }

  lemma RebookedTotals(st: Store, del: Address, d: Option<Delegator>, p: Address, delta: int)
    requires del in st.delegators && p in st.delegators && st.delegators[del].proxy == Some(p) && p != del
    requires DelegatorOk(st, del)
    requires
      var was := st.delegators[del];
      || (d == None && delta == -was.tokens)
      || (d == Some(was.(proxy := None)) && delta == -was.tokens)
      || (d == Some(was.(tokens := was.tokens + delta)) && was.tokens + delta > 0)
    ensures
      var r := Rebooked(st, del, d, p, delta);
      Rebooks(st.delegators, r.delegators, del) && TotalsFollow(st.delegators, r.delegators, del) && Succeeds(st, r, del)
  {
  }

  lemma RebookedBindings(st: Store, del: Address, d: Option<Delegator>, p: Address, delta: int)
    requires del in st.delegators && p in st.delegators && st.delegators[del].proxy == Some(p)
    requires forall b: Binding :: b.delegator == del ==> (b in st.bindings <==> Binds(st, b))
    requires d.Some? && d.value.proxy.Some? ==> d.value.proxy == Some(p)
    ensures BindingsFollow(st, Rebooked(st, del, d, p, delta), del)
  {
  }

  lemma RebookedTokens(st: Store, del: Address, d: Option<Delegator>, p: Address, delta: int)
    requires del in st.delegators && p in st.delegators && p != del
    ensures
      Sum(Tokens(Rebooked(st, del, d, p, delta).delegators)) ==
      Sum(Tokens(st.delegators)) - st.delegators[del].tokens + if d.Some? then d.value.tokens else 0
  {
    hide Sum, Tokens;
    var ds := Retotalled(st.delegators, p, delta);
    TokensUpdate(st.delegators, p, ds[p]);
    TokensRemove(ds, del);
    if d.Some? {
      TokensUpdate(ds, del, d.value);
    }
  }

  // ---------- Unbinding ----------

  /** After UpdateProxy, replacing del's record gives the books of Rebooked up to shares. */
  lemma ReplacedKeeps(st: Store, ctx: Context, s: Store, del: Address, d: Delegator, delta: int)
    requires ctx.Valid() && Inv(st, ctx)
    requires del in st.delegators && st.delegators[del].proxy.Some?
    requires
      var was := st.delegators[del];
      || (d == was.(proxy := None) && delta == -was.tokens)
      || (d == was.(tokens := was.tokens + delta) && was.tokens + delta > 0)
    requires
      var p := st.delegators[del].proxy.value;
      && p in st.delegators && p != del
      && Steady(s, ctx) && SharesOk(s) && Reshares(st, s)
      && Reweighs(Retotalled(st.delegators, p, delta), s.delegators, p)
    ensures
      var p := st.delegators[del].proxy.value;
      var r := SetDelegator(s, del, d).(bindings := Rebooked(st, del, Some(d), p, delta).bindings);
      && ValidatorsOk(r, ctx) && SharesOk(r) && DelegatorsOk(r) && UndelegationsOk(r)
      && Sum(SelfDelegations(r.validators)) == Sum(SelfDelegations(st.validators))
      && Sum(Tokens(r.delegators)) == Sum(Tokens(st.delegators)) - st.delegators[del].tokens + d.tokens
  {
    hide ValidatorsOk, SharesOk, DelegatorsOk, UndelegationsOk, Steady, Reshares, Sum, Tokens, SelfDelegations,
      BoundTokens, Reweighs, ShareTotalsOk;
    var p := st.delegators[del].proxy.value;
    var b := Rebooked(st, del, Some(d), p, delta);
    var r := SetDelegator(s, del, d).(bindings := b.bindings);
    ProxyCovers(st, del);
    RebookedKeeps(st, del, Some(d), delta);
    RebookedTokens(st, del, Some(d), p, delta);
    ReweighsSet(Retotalled(st.delegators, p, delta), s.delegators, p, del, d);
    ReweighsDelegators(b, r, p);
    ReweighsTokens(b, r, p);
    ResharesValidators(st, s, ctx);
    SharesOkOthers(s, del);
    SameSetKeeps(s, r, ctx);
    ResharesPools(st, s);
    ResharesRest(st, s);
    ResharesUndelegations(st, r);
    SharesFrame(s, r);
  }

  lemma ResharesRest(st: Store, r: Store)
    requires Reshares(st, r)
    ensures r.undelegations == st.undelegations && r.timeKeys == st.timeKeys && r.bindings == st.bindings
    ensures r.bonded == st.bonded && r.notBonded == st.notBonded && r.balances == st.balances
  {
  }

  lemma ReweighsSet(ds: map<Address, Delegator>, ds': map<Address, Delegator>, p: Address, del: Address, d: Delegator)
    requires Reweighs(ds, ds', p) && p != del && del in ds
    requires d.validators == ds[del].validators && d.shares == ds[del].shares
    ensures Reweighs(ds[del := d], ds'[del := d], p) && SameLists(ds', ds'[del := d]) && del in ds' && ds'[del] == ds[del]
  {
    if ds' != ds {
      var x :| ds' == ds[p := ds[p].(shares := x)];
      assert ds'[del := d] == ds[del := d][p := ds[del := d][p].(shares := x)];
    }
  }

  /** Unbinding keeps the invariant. */
  lemma UnbindKeeps(st: Store, ctx: Context, del: Address)
    requires ctx.Valid() && Inv(st, ctx) && Unbind(st, ctx, del).Some?
    ensures Inv(Unbind(st, ctx, del).value, ctx)
    ensures StatusKept(st.validators, Unbind(st, ctx, del).value.validators)
    ensures Unbind(st, ctx, del).value.validators.Keys == st.validators.Keys
  {
    hide ValidatorsOk, SharesOk, DelegatorsOk, UndelegationsOk, Steady, Reshares, Sum, Tokens, SelfDelegations,
      BoundTokens, Reweighs, UpdateProxy, Quantities;
    var d := st.delegators[del];
    var p := d.proxy.value;
    UpdateProxyKeeps(st, ctx, del, -d.tokens);
    var s := UpdateProxy(st, ctx, d, -d.tokens).value;
    ReplacedKeeps(st, ctx, s, del, d.(proxy := None), -d.tokens);
    ResharesRest(st, s);
    ResharesStatus(st, s);
    var r := Unbind(st, ctx, del).value;
    assert r == SetDelegator(s, del, d.(proxy := None)).(bindings := st.bindings - {Binding(p, del)});
  }

  /** Unbinding clears the delegator's proxy and touches no record but the two. */
  lemma UnbindRecords(st: Store, ctx: Context, del: Address, q: Address)
    requires ctx.Valid() && Inv(st, ctx) && Unbind(st, ctx, del).Some?
    requires q in st.delegators && st.delegators[del].proxy != Some(q)
    ensures
      var r := Unbind(st, ctx, del).value;
      && del in r.delegators && r.delegators[del] == st.delegators[del].(proxy := None)
      && q in r.delegators && (q != del ==> r.delegators[q] == st.delegators[q])
  {
    hide Inv, UpdateProxy, Steady, SharesOk, Reshares, Dismissed;
    UpdateProxyKeeps(st, ctx, del, -st.delegators[del].tokens);
  }

  // ---------- Binding ----------

  /** The books after del, unbound before, binds to a proxy. */
  function BoundBook(st: Store, del: Address, proxy: Address): Store
    requires del in st.delegators && proxy in st.delegators
  {
    var d := st.delegators[del];
    st.(delegators := Retotalled(st.delegators, proxy, d.tokens)[del := d.(proxy := Some(proxy), isProxy := false)],
        bindings := st.bindings + {Binding(proxy, del)})
  }

  ghost predicate CanBind(st: Store, del: Address, proxy: Address) {
    && del != proxy && del in st.delegators && proxy in st.delegators
    && st.delegators[del].proxy.None? && st.delegators[del].shares == 0 && !st.delegators[del].isProxy
    && st.delegators[proxy].isProxy
  }

  lemma BoundBookKeeps(st: Store, ctx: Context, del: Address, proxy: Address)
    requires ctx.Valid() && Inv(st, ctx) && CanBind(st, del, proxy)
    ensures Inv(BoundBook(st, del, proxy), ctx)
  {
    hide ValidatorsOk, SharesOk, DelegatorsOk, UndelegationsOk, Sum, Tokens, SelfDelegations, ShareTotalsOk, Quantities,
      BoundTokens, SameLists;
    var r := BoundBook(st, del, proxy);
    InvTotals(st, ctx);
    SameSetKeeps(st, r, ctx);
    ResharesUndelegations(st, r);
    BoundLists(st, del, proxy);
    SharesFrame(st, r);
    BoundBooks(st, del, proxy);
    BoundBookTokens(st, del, proxy);
  }

  lemma BoundLists(st: Store, del: Address, proxy: Address)
    requires del in st.delegators && proxy in st.delegators
    ensures SameLists(st.delegators, BoundBook(st, del, proxy).delegators)
  {
  }

  lemma BoundBookTokens(st: Store, del: Address, proxy: Address)
    requires del in st.delegators && proxy in st.delegators && del != proxy
    ensures Sum(Tokens(BoundBook(st, del, proxy).delegators)) == Sum(Tokens(st.delegators))
  {
    hide Sum;
    assert Tokens(BoundBook(st, del, proxy).delegators) == Tokens(st.delegators);
  }

  lemma BoundBooks(st: Store, del: Address, proxy: Address)
    requires DelegatorsOk(st) && SharesOk(st) && CanBind(st, del, proxy)
    ensures DelegatorsOk(BoundBook(st, del, proxy))
  {
    hide DelegatorsOk, ProxyTotalOk, SharesOk, Rebooks, TotalsFollow, BindingsFollow;
    var r := BoundBook(st, del, proxy);
    DelegatorOfBooks(st, del);
    BoundFollows(st, del, proxy);
    RebookKeeps(st, r, del);
  }

  lemma BoundFollows(st: Store, del: Address, proxy: Address)
    requires CanBind(st, del, proxy)
    requires forall b: Binding :: b.delegator == del ==> (b in st.bindings <==> Binds(st, b))
    ensures
      var r := BoundBook(st, del, proxy);
      && Rebooks(st.delegators, r.delegators, del) && TotalsFollow(st.delegators, r.delegators, del)
      && BindingsFollow(st, r, del)
  {
  }

  lemma AttachKeeps(st: Store, ctx: Context, del: Address, d: Delegator, proxy: Address)
    requires ctx.Valid() && Inv(st, ctx) && CanBind(st, del, proxy)
    requires st.delegators[del] == d.(proxy := None)
    requires Attach(st, ctx, del, d, proxy, st.delegators[proxy]).Some?
    ensures Inv(Attach(st, ctx, del, d, proxy, st.delegators[proxy]).value, ctx)
    ensures StatusKept(st.validators, Attach(st, ctx, del, d, proxy, st.delegators[proxy]).value.validators)
    ensures Attach(st, ctx, del, d, proxy, st.delegators[proxy]).value.validators.Keys == st.validators.Keys
  {
    hide Inv, UpdateShares, DelegatorsOk;
    BoundBookKeeps(st, ctx, del, proxy);
    var s := BoundBook(st, del, proxy);
    BooksOf(s, ctx);
    TotalNonNegative(s, proxy);
    ProxyUnbound(s, proxy);
    var p := s.delegators[proxy];
    assert s.delegators == st.delegators[del := d.(proxy := Some(proxy), isProxy := false)][proxy := p];
    UpdateSharesInv(s, ctx, proxy, p.totalDelegated + p.tokens);
  }

  lemma BooksOf(st: Store, ctx: Context)
    requires ctx.Valid() && Inv(st, ctx)
    ensures DelegatorsOk(st) && SharesOk(st)
  {
    hide ValidatorsOk, SharesOk, DelegatorsOk, PoolsOk, UndelegationsOk;
  }

  /** MsgBindProxy keeps the invariant. */
  lemma BindKeeps(st: Store, ctx: Context, del: Address, proxy: Address)
    requires ctx.Valid() && Inv(st, ctx) && Bind(st, ctx, del, proxy).Some?
    ensures Inv(Bind(st, ctx, del, proxy).value, ctx)
    ensures StatusKept(st.validators, Bind(st, ctx, del, proxy).value.validators)
    ensures Bind(st, ctx, del, proxy).value.validators.Keys == st.validators.Keys
  {
    hide Inv, UpdateShares, Unbind, Attach, DelegatorsOk, SharesOk;
    var d, p := st.delegators[del], st.delegators[proxy];
    BooksOf(st, ctx);
    if d.proxy == Some(proxy) {
      TotalNonNegative(st, proxy);
      ProxyUnbound(st, proxy);
      UpdateSharesInv(st, ctx, proxy, p.totalDelegated + p.tokens);
    } else if d.proxy.Some? {
      UnbindKeeps(st, ctx, del);
      UnbindRecords(st, ctx, del, proxy);
      AttachKeeps(Unbind(st, ctx, del).value, ctx, del, d, proxy);
      StatusKeptBoth(st.validators, Unbind(st, ctx, del).value.validators, Bind(st, ctx, del, proxy).value.validators);
    } else {
      AttachKeeps(st, ctx, del, d, proxy);
    }
  }

  // ---------- Registering ----------

  /** MsgRegProxy keeps the invariant. */
  lemma RegProxyKeeps(st: Store, ctx: Context, a: Address)
    requires ctx.Valid() && Inv(st, ctx) && RegProxy(st, ctx, a).Some?
    ensures Inv(RegProxy(st, ctx, a).value, ctx)
    ensures StatusKept(st.validators, RegProxy(st, ctx, a).value.validators)
    ensures RegProxy(st, ctx, a).value.validators.Keys == st.validators.Keys
  {
    hide ValidatorsOk, SharesOk, DelegatorsOk, UndelegationsOk, UpdateShares, Sum, Tokens, SelfDelegations,
      ShareTotalsOk, Quantities, BoundTokens;
    var d := st.delegators[a];
    var s := SetDelegator(st, a, d.(isProxy := true, proxy := None));
    InvTotals(st, ctx);
    SameSetKeeps(st, s, ctx);
    ResharesUndelegations(st, s);
    SharesFrame(st, s);
    TokensUpdate(st.delegators, a, s.delegators[a]);
    RegisteredBooks(st, a);
    TotalNonNegative(s, a);
    UpdateSharesInv(s, ctx, a, d.tokens);
  }

  lemma RegisteredBooks(st: Store, a: Address)
    requires DelegatorsOk(st) && a in st.delegators && st.delegators[a].proxy.None?
    ensures DelegatorsOk(SetDelegator(st, a, st.delegators[a].(isProxy := true, proxy := None)))
  {
    hide DelegatorsOk, ProxyTotalOk;
    DelegatorOfBooks(st, a);
    RebookKeeps(st, SetDelegator(st, a, st.delegators[a].(isProxy := true, proxy := None)), a);
  }

  /** Unregistering keeps the invariant and frees every delegator of the proxy. */
  lemma UnregProxyKeeps(st: Store, ctx: Context, a: Address)
    requires ctx.Valid() && Inv(st, ctx) && UnregProxy(st, ctx, a).Some?
    ensures Inv(UnregProxy(st, ctx, a).value, ctx)
    ensures StatusKept(st.validators, UnregProxy(st, ctx, a).value.validators)
    ensures UnregProxy(st, ctx, a).value.validators.Keys == st.validators.Keys
  {
    hide ValidatorsOk, SharesOk, DelegatorsOk, UndelegationsOk, UpdateShares, Sum, Tokens, SelfDelegations,
      ShareTotalsOk, Quantities, BoundTokens, SameLists, BoundTo;
    var d := st.delegators[a].(isProxy := false, totalDelegated := 0);
    var s := SetDelegator(ClearProxy(st, a), a, d);
    InvTotals(st, ctx);
    SameSetKeeps(st, s, ctx);
    ResharesUndelegations(st, s);
    UnregisteredLists(st, a, d);
    SharesFrame(st, s);
    UnregisterKeeps(st, a, d);
    ProxyUnbound(st, a);
    TotalNonNegative(s, a);
    UpdateSharesInv(s, ctx, a, d.tokens);
  }

  lemma UnregisteredLists(st: Store, a: Address, d: Delegator)
    requires a in st.delegators && d == st.delegators[a].(isProxy := false, totalDelegated := 0)
    ensures
      var s := SetDelegator(ClearProxy(st, a), a, d);
      SameLists(st.delegators, s.delegators) && Sum(Tokens(s.delegators)) == Sum(Tokens(st.delegators))
  {
    hide Sum, BoundTo;
    var s := SetDelegator(ClearProxy(st, a), a, d);
    assert Tokens(s.delegators) == Tokens(st.delegators);
  }
}
