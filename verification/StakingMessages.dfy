/** Every staking message keeps the invariant. */
module StakingMessages {
  import opened EvmTypes
  import opened Coins
  import opened Sums
  import opened StakingStore
  import opened StakingInvariants
  import opened ShareUpdates
  import opened ShareMoves
  import opened Proxies

  // ---------- Frames ----------

  /** The validators, their shares and the sets and queues of validators are the same. */
  ghost predicate SameSet(st: Store, r: Store) {
    && r.validators == st.validators && r.powerIndex == st.powerIndex && r.shares == st.shares
    && r.lastPowers == st.lastPowers && r.lastTotal == st.lastTotal
    && r.queue == st.queue && r.abandoned == st.abandoned
  }

  lemma SameSetKeeps(st: Store, r: Store, ctx: Context)
    requires ctx.Valid() && ValidatorsOk(st, ctx) && ShareTotalsOk(st) && SameSet(st, r)
    ensures ValidatorsOk(r, ctx) && Steady(r, ctx)
  {
    hide ShareSum, Power;
    forall a | a in r.validators
      ensures SharesAt(r, a)
    {
      assert SharesAt(st, a);
    }
    forall k
      ensures k in r.powerIndex <==> Indexes(r, ctx, k)
    {
      assert k in st.powerIndex <==> Indexes(st, ctx, k);
    }
  }

  /** Lists and recorded shares are the same; new delegators have none. */
  ghost predicate SameLists(ds: map<Address, Delegator>, ds': map<Address, Delegator>) {
    && (forall a :: a in ds ==> a in ds' && ds'[a].validators == ds[a].validators && ds'[a].shares == ds[a].shares)
    && (forall a :: a in ds' && a !in ds ==> ds'[a].validators == [] && ds'[a].shares == 0)
  }

  lemma SharesFrame(st: Store, r: Store)
    requires SharesOk(st) && r.validators == st.validators && r.shares == st.shares
    requires SameLists(st.delegators, r.delegators)
    ensures SharesOk(r)
  {
    hide ShareSum;
    forall a | a in r.validators
      ensures SharesAt(r, a)
    {
      assert SharesAt(st, a);
    }
    forall k
      ensures ShareAt(r.shares, k) == Recorded(r, k)
    {
      assert ShareAt(st.shares, k) == Recorded(st, k);
    }
    forall a | a in r.delegators
      ensures ListOk(r.delegators[a])
    {
      assert a in st.delegators ==> ListOk(st.delegators[a]);
    }
  }

  /** Share operations keep the validator invariants. */
  lemma ResharesValidators(st: Store, r: Store, ctx: Context)
    requires ctx.Valid() && ValidatorsOk(st, ctx) && Reshares(st, r) && Steady(r, ctx)
    ensures ValidatorsOk(r, ctx)
  {
    hide RecordsOk, IndexOk, LastOk, QueueOk, AbandonedOk, ShareTotalsOk, Reshares;
    ResharesKeeps(st, r);
  }

  lemma ReweighsTokens(st: Store, r: Store, del: Address)
    requires Reweighs(st.delegators, r.delegators, del)
    ensures Tokens(r.delegators) == Tokens(st.delegators)
  {
  }

  lemma InvSteady(st: Store, ctx: Context)
    requires ctx.Valid() && ValidatorsOk(st, ctx) && SharesOk(st)
    ensures Steady(st, ctx)
  {
    hide RecordsOk, IndexOk, LastOk, QueueOk, AbandonedOk, ShareTotalsOk;
  }

  /** The invariant with some tokens of the bonded pool no longer owed to anyone. */
  ghost predicate Releasing(st: Store, ctx: Context, quantity: int)
    requires ctx.Valid()
  {
    && ValidatorsOk(st, ctx) && SharesOk(st) && DelegatorsOk(st) && UndelegationsOk(st)
    && st.bonded == Sum(SelfDelegations(st.validators)) + Sum(Tokens(st.delegators)) + quantity
    && st.notBonded == Sum(Quantities(st.undelegations))
  }

  /** UpdateShares keeps the whole invariant. */
  lemma UpdateSharesReleasing(st: Store, ctx: Context, del: Address, tokens: int, quantity: int)
    requires ctx.Valid() && Releasing(st, ctx, quantity) && tokens > 0
    requires del in st.delegators ==> st.delegators[del].proxy.None?
    requires UpdateShares(st, ctx, del, tokens).Some?
    ensures Releasing(UpdateShares(st, ctx, del, tokens).value, ctx, quantity)
    ensures StatusKept(st.validators, UpdateShares(st, ctx, del, tokens).value.validators)
    ensures UpdateShares(st, ctx, del, tokens).value.validators.Keys == st.validators.Keys
  {
    hide ValidatorsOk, SharesOk, DelegatorsOk, Steady, UpdateShares, Sum, Tokens, SelfDelegations, Weigh, Reweighs;
    var r := UpdateShares(st, ctx, del, tokens).value;
    InvSteady(st, ctx);
    UpdateSharesKeeps(st, ctx, del, tokens);
    ResharesValidators(st, r, ctx);
    ResharesPools(st, r);
    ResharesStatus(st, r);
    ReweighsTokens(st, r, del);
    ReweighsDelegators(st, r, del);
    ResharesUndelegations(st, r);
  }

  lemma UpdateSharesInv(st: Store, ctx: Context, del: Address, tokens: int)
    requires ctx.Valid() && Inv(st, ctx) && tokens > 0
    requires del in st.delegators ==> st.delegators[del].proxy.None?
    requires UpdateShares(st, ctx, del, tokens).Some?
    ensures Inv(UpdateShares(st, ctx, del, tokens).value, ctx)
    ensures StatusKept(st.validators, UpdateShares(st, ctx, del, tokens).value.validators)
    ensures UpdateShares(st, ctx, del, tokens).value.validators.Keys == st.validators.Keys
  {
    hide ValidatorsOk, SharesOk, DelegatorsOk, UndelegationsOk, UpdateShares, Sum, Tokens, SelfDelegations, Quantities;
    UpdateSharesReleasing(st, ctx, del, tokens, 0);
  }

  lemma ResharesUndelegations(st: Store, r: Store)
    requires UndelegationsOk(st) && r.undelegations == st.undelegations && r.timeKeys == st.timeKeys
    ensures UndelegationsOk(r)
  {
    forall k
      ensures k in r.timeKeys <==> Keyed(r, k)
    {
      assert k in st.timeKeys <==> Keyed(st, k);
    }
  }

  // ---------- Deposit ----------

  lemma TokensUpdate(ds: map<Address, Delegator>, a: Address, d: Delegator)
    ensures Sum(Tokens(ds[a := d])) == Sum(Tokens(ds)) + d.tokens - if a in ds then ds[a].tokens else 0
  {
    SumUpdate(Tokens(ds), a, d.tokens);
    assert Tokens(ds[a := d]) == Tokens(ds)[a := d.tokens];
  }

  lemma TokensRemove(ds: map<Address, Delegator>, a: Address)
    ensures Sum(Tokens(ds - {a})) == Sum(Tokens(ds)) - if a in ds then ds[a].tokens else 0
  {
    SumRemove(Tokens(ds), a);
    assert Tokens(ds - {a}) == Tokens(ds) - {a};
  }

  /** The delegators after a deposit, before shares are updated. */
  function DepositBook(ds: map<Address, Delegator>, del: Address, amount: int): map<Address, Delegator> {
    var d := if del in ds then ds[del] else NewDelegator();
    var ds1 := ds[del := d.(tokens := d.tokens + amount)];
    if d.proxy.None? || d.proxy.value !in ds1 then ds1
    else
      var p := ds1[d.proxy.value];
      ds1[d.proxy.value := p.(totalDelegated := p.totalDelegated + amount)]
  }

  function Deposited(st: Store, del: Address, amount: int): Store {
    st.(balances := st.balances[del := BalanceOf(st, del) - amount],
        bonded := st.bonded + amount,
        delegators := DepositBook(st.delegators, del, amount))
  }

  lemma DepositedLists(ds: map<Address, Delegator>, del: Address, amount: int)
    ensures SameLists(ds, DepositBook(ds, del, amount))
  {
  }

  lemma DepositedKeeps(st: Store, ctx: Context, del: Address, amount: int)
    requires ctx.Valid() && Inv(st, ctx) && amount > 0
    ensures Inv(Deposited(st, del, amount), ctx)
  {
    hide ValidatorsOk, SharesOk, DelegatorsOk, Sum, Tokens, SelfDelegations, Quantities, ShareTotalsOk, DepositBook,
      UndelegationsOk, SameLists;
    var r := Deposited(st, del, amount);
    InvTotals(st, ctx);
    DepositedLists(st.delegators, del, amount);
    SameSetKeeps(st, r, ctx);
    DepositedBooks(st, del, amount);
    DepositedTokens(st, del, amount);
    SharesFrame(st, r);
    ResharesUndelegations(st, r);
  }

  lemma DepositedTokens(st: Store, del: Address, amount: int)
    requires DelegatorsOk(st)
    ensures Sum(Tokens(Deposited(st, del, amount).delegators)) == Sum(Tokens(st.delegators)) + amount
  {
    hide Sum, BoundTokens, DelegatorsOk, Tokens;
    var d := if del in st.delegators then st.delegators[del] else NewDelegator();
    var d' := d.(tokens := d.tokens + amount);
    TokensUpdate(st.delegators, del, d');
    if d.proxy.Some? {
      var p := d.proxy.value;
      ProxyCovers(st, del);
      var ds := st.delegators[del := d'];
      TokensUpdate(ds, p, ds[p].(totalDelegated := ds[p].totalDelegated + amount));
    }
  }

  lemma InvTotals(st: Store, ctx: Context)
    requires ctx.Valid() && Inv(st, ctx)
    ensures ShareTotalsOk(st)
  {
    hide RecordsOk, IndexOk, LastOk, QueueOk, AbandonedOk, ShareTotalsOk;
  }

  lemma DepositedBooks(st: Store, del: Address, amount: int)
    requires DelegatorsOk(st) && amount > 0
    ensures DelegatorsOk(Deposited(st, del, amount))
  {
    hide Sum, BoundTokens, DelegatorsOk, Tokens, Deposited, Succeeds, TotalsFollow, Rebooks, BindingsFollow;
    DepositedBindings(st, del, amount);
    DepositedTotals(st, del, amount);
    RebookKeeps(st, Deposited(st, del, amount), del);
  }

  lemma DepositedTotals(st: Store, del: Address, amount: int)
    requires DelegatorsOk(st) && amount > 0
    ensures
      var r := Deposited(st, del, amount);
      Rebooks(st.delegators, r.delegators, del) && TotalsFollow(st.delegators, r.delegators, del) && Succeeds(st, r, del)
  {
    hide Sum, BoundTokens, DelegatorsOk, Tokens, ProxyTotalOk, Rebooks, TotalsFollow;
    DelegatorOfBooks(st, del);
    if del in st.delegators && st.delegators[del].proxy.Some? {
      ProxyCovers(st, del);
    }
    DepositedFollows(st.delegators, del, amount);
  }

  lemma DepositedFollows(ds: map<Address, Delegator>, del: Address, amount: int)
    requires del in ds && ds[del].proxy.Some? ==> ds[del].proxy.value in ds && ds[del].proxy.value != del
    ensures
      var ds' := DepositBook(ds, del, amount);
      Rebooks(ds, ds', del) && TotalsFollow(ds, ds', del)
  {
  }

  /** The facts about one delegator. */
  lemma DelegatorOfBooks(st: Store, a: Address)
    requires DelegatorsOk(st)
    ensures a in st.delegators ==> DelegatorOk(st, a) && ProxyTotalOk(st, a) && st.delegators[a].proxy != Some(a)
    ensures forall b: Binding :: b.delegator == a ==> (b in st.bindings <==> Binds(st, b))
  {
    if a in st.delegators {
      assert DelegatorOk(st, a);
    }
    forall b: Binding | b.delegator == a
      ensures b in st.bindings <==> Binds(st, b)
    {
    }
  }

  lemma DepositedBindings(st: Store, del: Address, amount: int)
    requires DelegatorsOk(st)
    ensures BindingsFollow(st, Deposited(st, del, amount), del)
  {
    hide Sum, BoundTokens;
    DelegatorOfBooks(st, del);
  }

  /** MsgDeposit keeps the invariant. */
  lemma DepositKeeps(st: Store, ctx: Context, del: Address, amount: int)
    requires ctx.Valid() && Inv(st, ctx)
    requires Deposit(st, ctx, del, amount).Some?
    ensures Inv(Deposit(st, ctx, del, amount).value, ctx)
    ensures StatusKept(st.validators, Deposit(st, ctx, del, amount).value.validators)
    ensures Deposit(st, ctx, del, amount).value.validators.Keys == st.validators.Keys
  {
    hide ValidatorsOk, SharesOk, DelegatorsOk, PoolsOk, UndelegationsOk, UpdateShares;
    DepositedKeeps(st, ctx, del, amount);
    var s := Deposited(st, del, amount);
    DelegatorOfBooks(st, del);
    TotalNonNegative(s, del);
    if s.delegators[del].proxy.Some? {
      var p := s.delegators[del].proxy.value;
      ProxyCovers(s, del);
      TotalNonNegative(s, p);
      UpdateSharesInv(s, ctx, p, s.delegators[p].totalDelegated + s.delegators[p].tokens);
    } else {
      UpdateSharesInv(s, ctx, del, Weighed(s.delegators[del]));
    }
  }
}
