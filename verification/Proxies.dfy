/** The bookkeeping of proxies: totals, bindings and the ban on chains of proxies. */
module Proxies {
  import opened EvmTypes
  import opened Sums
  import opened StakingStore
  import opened StakingInvariants
  import opened ShareUpdates

  /** What one delegator adds to the total of a proxy. */
  ghost function Contribution(ds: map<Address, Delegator>, del: Address, proxy: Address): int {
    if del in ds && ds[del].proxy == Some(proxy) then ds[del].tokens else 0
  }

  /** Only del's record and the totals of others differ. */
  ghost predicate Rebooks(ds: map<Address, Delegator>, ds': map<Address, Delegator>, del: Address) {
    forall a :: a != del ==>
      && (a in ds <==> a in ds')
      && (a in ds ==> ds'[a] == ds[a].(totalDelegated := ds'[a].totalDelegated))
  }

  lemma RebookSums(ds: map<Address, Delegator>, ds': map<Address, Delegator>, del: Address, q: Address)
    requires Rebooks(ds, ds', del)
    ensures Sum(BoundTokens(ds', q)) == Sum(BoundTokens(ds, q)) - Contribution(ds, del, q) + Contribution(ds', del, q)
  {
    var b, b' := BoundTokens(ds, q), BoundTokens(ds', q);
    SumRemove(b, del);
    SumRemove(b', del);
    assert b - {del} == b' - {del};
  }

  /** The new total of every other proxy moves by what del contributes. */
  ghost predicate TotalsFollow(ds: map<Address, Delegator>, ds': map<Address, Delegator>, del: Address) {
    forall q :: q in ds && q in ds' && q != del ==>
      ds'[q].totalDelegated == ds[q].totalDelegated - Contribution(ds, del, q) + Contribution(ds', del, q)
  }

  /** del's new record agrees with the old one as far as being a proxy goes. */
  ghost predicate Succeeds(st: Store, r: Store, del: Address) {
    && (del in r.delegators ==>
          && DelegatorOk(r, del) && r.delegators[del].proxy != Some(del)
          && r.delegators[del].totalDelegated == if del in st.delegators then st.delegators[del].totalDelegated else 0)
    && (del in st.delegators && st.delegators[del].isProxy ==> del in r.delegators && r.delegators[del].isProxy)
  }

  ghost predicate BindingsFollow(st: Store, r: Store, del: Address) {
    forall b :: b in r.bindings <==> if b.delegator == del then Binds(r, b) else b in st.bindings
  }

  lemma NobodyBound(st: Store, a: Address)
    requires DelegatorsOk(st) && (a in st.delegators ==> !st.delegators[a].isProxy)
    ensures BoundTokens(st.delegators, a) == map[]
  {
    forall b | b in st.delegators
      ensures st.delegators[b].proxy != Some(a)
    {
      assert DelegatorOk(st, b);
    }
  }

  lemma RebookKeeps(st: Store, r: Store, del: Address)
    requires DelegatorsOk(st) && Rebooks(st.delegators, r.delegators, del)
    requires TotalsFollow(st.delegators, r.delegators, del) && Succeeds(st, r, del) && BindingsFollow(st, r, del)
    ensures DelegatorsOk(r)
  {
    forall a | a in r.delegators
      ensures DelegatorOk(r, a)
    {
      RebookDelegator(st, r, del, a);
    }
    forall a | a in r.delegators
      ensures ProxyTotalOk(r, a)
    {
      RebookTotal(st, r, del, a);
    }
    forall b
      ensures b in r.bindings <==> Binds(r, b)
    {
      assert b in st.bindings <==> Binds(st, b);
    }
  }

  lemma RebookDelegator(st: Store, r: Store, del: Address, a: Address)
    requires DelegatorsOk(st) && Rebooks(st.delegators, r.delegators, del)
    requires TotalsFollow(st.delegators, r.delegators, del) && Succeeds(st, r, del) && a in r.delegators
    ensures DelegatorOk(r, a)
  {
    hide BoundTokens, BindingsOk;
    if a != del {
      assert DelegatorOk(st, a);
      if del in st.delegators {
        assert DelegatorOk(st, del);
      }
    }
  }

  lemma RebookTotal(st: Store, r: Store, del: Address, a: Address)
    requires DelegatorsOk(st) && Rebooks(st.delegators, r.delegators, del)
    requires TotalsFollow(st.delegators, r.delegators, del) && Succeeds(st, r, del) && a in r.delegators
    ensures ProxyTotalOk(r, a)
  {
    hide BindingsOk;
    RebookSums(st.delegators, r.delegators, del, a);
    if del in st.delegators {
      assert DelegatorOk(st, del);
    }
    if a in st.delegators {
      assert ProxyTotalOk(st, a);
    } else {
      NobodyBound(st, a);
    }
  }

  /** A proxy's total covers every delegator bound to it, so it never goes negative. */
  lemma ProxyCovers(st: Store, del: Address)
    requires DelegatorsOk(st) && del in st.delegators && st.delegators[del].proxy.Some?
    ensures
      var p := st.delegators[del].proxy.value;
      && p in st.delegators && p != del && st.delegators[p].totalDelegated >= st.delegators[del].tokens
      && st.delegators[p].proxy.None?
  {
    assert DelegatorOk(st, del);
    var p := st.delegators[del].proxy.value;
    ProxyUnbound(st, p);
    assert ProxyTotalOk(st, p);
    BoundPositive(st, p);
    assert del in BoundTokens(st.delegators, p);
  }

  lemma ProxyUnbound(st: Store, p: Address)
    requires DelegatorsOk(st) && p in st.delegators && st.delegators[p].isProxy
    ensures st.delegators[p].proxy.None?
  {
    hide BoundTokens;
    assert DelegatorOk(st, p);
  }

  lemma BoundPositive(st: Store, p: Address)
    requires DelegatorsOk(st)
    ensures
      var b := BoundTokens(st.delegators, p);
      Sum(b) >= 0 && forall a :: a in b ==> b[a] <= Sum(b)
  {
    var b := BoundTokens(st.delegators, p);
    forall a | a in b
      ensures b[a] >= 0
    {
      assert DelegatorOk(st, a);
    }
    SumNonNegative(b);
  }

  lemma TotalNonNegative(st: Store, a: Address)
    requires DelegatorsOk(st) && a in st.delegators
    ensures st.delegators[a].totalDelegated >= 0 && st.delegators[a].tokens > 0
  {
    assert ProxyTotalOk(st, a);
    assert DelegatorOk(st, a);
    BoundPositive(st, a);
  }

  /** The records agree up to shares. */
  ghost predicate SameStakes(ds: map<Address, Delegator>, ds': map<Address, Delegator>) {
    forall a :: (a in ds <==> a in ds') && (a in ds ==> ds'[a] == ds[a].(shares := ds'[a].shares))
  }

  /** Rewriting a delegator's shares leaves the books alone. */
  lemma ReweighsDelegators(st: Store, r: Store, del: Address)
    requires DelegatorsOk(st) && Reweighs(st.delegators, r.delegators, del) && r.bindings == st.bindings
    requires del in st.delegators ==> st.delegators[del].proxy.None?
    ensures DelegatorsOk(r)
  {
    hide BoundTokens, ProxyTotalOk;
    assert SameStakes(st.delegators, r.delegators);
    forall a | a in r.delegators
      ensures DelegatorOk(r, a)
    {
      assert DelegatorOk(st, a);
    }
    forall a | a in r.delegators
      ensures ProxyTotalOk(r, a)
    {
      SameStakesTotal(st, r, a);
    }
    forall b
      ensures b in r.bindings <==> Binds(r, b)
    {
      assert b in st.bindings <==> Binds(st, b);
    }
  }

  lemma SameStakesTotal(st: Store, r: Store, a: Address)
    requires SameStakes(st.delegators, r.delegators) && a in st.delegators && ProxyTotalOk(st, a)
    ensures ProxyTotalOk(r, a)
  {
    assert BoundTokens(r.delegators, a) == BoundTokens(st.delegators, a);
  }

  /** Unregistering a proxy: everyone it was bound to is free, and its total is zero. */
  lemma UnregisterKeeps(st: Store, a: Address, d: Delegator)
    requires DelegatorsOk(st) && a in st.delegators
    requires d == st.delegators[a].(isProxy := false, totalDelegated := 0)
    requires st.delegators[a].isProxy
    ensures DelegatorsOk(SetDelegator(ClearProxy(st, a), a, d))
  {
    hide BoundTokens, ProxyTotalOk;
    var r := SetDelegator(ClearProxy(st, a), a, d);
    assert DelegatorOk(st, a);
    ClearedProxies(st, a);
    forall b | b in r.delegators
      ensures DelegatorOk(r, b)
    {
      assert DelegatorOk(st, b);
    }
    forall q | q in r.delegators
      ensures ProxyTotalOk(r, q)
    {
      UnregisterTotal(st, a, r, q);
    }
    forall b
      ensures b in r.bindings <==> Binds(r, b)
    {
      assert b in st.bindings <==> Binds(st, b);
    }
  }

  /** r is st with every delegator bound to a freed, and a's total cleared. */
  ghost predicate Freed(st: Store, a: Address, r: Store) {
    && r.delegators.Keys == st.delegators.Keys
    && (a in st.delegators ==> r.delegators[a].totalDelegated == 0)
    && forall b :: b in st.delegators ==>
         && r.delegators[b].tokens == st.delegators[b].tokens
         && (b != a ==> r.delegators[b].totalDelegated == st.delegators[b].totalDelegated)
         && r.delegators[b].proxy == if st.delegators[b].proxy == Some(a) then None else st.delegators[b].proxy
  }

  lemma UnregisterTotal(st: Store, a: Address, r: Store, q: Address)
    requires Freed(st, a, r) && q in st.delegators && ProxyTotalOk(st, q)
    ensures ProxyTotalOk(r, q)
  {
    assert BoundTokens(r.delegators, q) == if q == a then map[] else BoundTokens(st.delegators, q);
  }

  /** Clearing through the binding keys reaches exactly the delegators bound to the proxy. */
  lemma ClearedProxies(st: Store, a: Address)
    requires BindingsOk(st)
    ensures forall b :: b in st.delegators ==>
              ClearProxy(st, a).delegators[b] ==
              if st.delegators[b].proxy == Some(a) then st.delegators[b].(proxy := None) else st.delegators[b]
  {
    forall b | b in st.delegators
      ensures b in BoundTo(st, a) <==> st.delegators[b].proxy == Some(a)
    {
      assert Binding(a, b) in st.bindings <==> Binds(st, Binding(a, b));
    }
  }
}
