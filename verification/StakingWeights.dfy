/** Whose shares a message recomputes and to what, and exactly when deposits, withdrawals and
    share messages fail. */
module StakingWeights {
  import opened EvmTypes
  import opened Coins
  import opened StakingStore
  import opened StakingInvariants
  import opened ShareUpdates
  import opened ShareMoves
  import opened Proxies
  import opened StakingMessages
  import opened ProxyMessages
  import opened DelegatorMessages
  import opened ValidatorMessages
  import opened EndBlocks
  import opened StakingMeanings

  /** A delegator's shares are its own tokens and those delegated to it times the weight of this
      block's week, rounded half to even; they stay when it lists no validator that exists. */
  ghost predicate Fresh(st: Store, ctx: Context, last: int, d: Delegator) {
    if forall v :: v in d.validators ==> v !in st.validators then d.shares == last
    else Rounds(d.shares, (d.tokens + d.totalDelegated) * ctx.rate)
  }

  function SharesIn(st: Store, a: Address): int {
    if a in st.delegators then st.delegators[a].shares else 0
  }

  /** The delegators in who have fresh shares, judged by the validators before the message;
      nobody else's shares change. */
  ghost predicate Refreshes(st: Store, r: Store, ctx: Context, who: set<Address>) {
    && (forall a :: a in r.delegators && a in who ==> Fresh(st, ctx, SharesIn(st, a), r.delegators[a]))
    && (forall a :: a in r.delegators && a in st.delegators && a !in who ==> r.delegators[a].shares == st.delegators[a].shares)
  }

  lemma FreshStays(st: Store, r: Store, ctx: Context, last: int, d: Delegator)
    requires r.validators.Keys == st.validators.Keys
    ensures Fresh(r, ctx, last, d) <==> Fresh(st, ctx, last, d)
  {
  }

  /** The delegator whose shares stand for del's tokens. */
  function Principal(ds: map<Address, Delegator>, del: Address): Address {
    if del in ds && ds[del].proxy.Some? then ds[del].proxy.value else del
  }

  // ---------- UpdateShares ----------

  lemma UpdateSharesWeighs(st: Store, ctx: Context, del: Address, tokens: int)
    requires ctx.Valid() && Steady(st, ctx) && SharesOk(st) && tokens > 0
    requires UpdateShares(st, ctx, del, tokens).Some?
    requires del in st.delegators && tokens == st.delegators[del].tokens + st.delegators[del].totalDelegated
    ensures
      var r := UpdateShares(st, ctx, del, tokens).value;
      && del in r.delegators && Fresh(st, ctx, st.delegators[del].shares, r.delegators[del])
      && (forall a :: a != del ==> (a in r.delegators <==> a in st.delegators))
      && (forall a :: a != del && a in st.delegators ==> r.delegators[a] == st.delegators[a])
      && r.validators.Keys == st.validators.Keys
  {
    hide Steady, SharesOk, Weigh, Rounds, UpdateLoop, Reshares, Given, Current, HoldsAll, Has;
    var d := st.delegators[del];
    SteadyRecords(st, ctx);
    ListedHeld(st, del);
    var vals := Existing(st, d.validators);
    if vals == [] {
      NoneExisting(st, d.validators);
    } else {
      UpdateLoopSteady(st, ctx, del, vals, d.shares, Weigh(ctx, tokens));
      WeighRounds(ctx, tokens);
      SomeExisting(st, d.validators);
    }
  }

  lemma {:induction false} SomeExisting(st: Store, vs: seq<Address>)
    requires Existing(st, vs) != []
    ensures exists v :: v in vs && v in st.validators
  {
    if vs[0] in st.validators {
      assert vs[0] in vs;
    } else {
      SomeExisting(st, vs[1..]);
    }
  }

  lemma NoneExisting(st: Store, vs: seq<Address>)
    requires RecordsOk(st) && NoRepeats(vs) && Existing(st, vs) == []
    ensures forall v :: v in vs ==> v !in st.validators
  {
    ExistingMeans(st, vs);
    forall v | v in vs
      ensures v !in st.validators
    {
      assert !Has(Existing(st, vs), v);
    }
  }

  lemma SteadyRecords(st: Store, ctx: Context)
    requires ctx.Valid() && Steady(st, ctx)
    ensures RecordsOk(st)
  {
  }

  /** Updating the principal's shares in a store that shows the same shares as st. */
  lemma UpdateRefreshes(st: Store, s: Store, ctx: Context, w: Address, tokens: int)
    requires ctx.Valid() && Steady(s, ctx) && SharesOk(s) && tokens > 0
    requires UpdateShares(s, ctx, w, tokens).Some? && SameLists(st.delegators, s.delegators)
    requires w in s.delegators && tokens == s.delegators[w].tokens + s.delegators[w].totalDelegated
    requires s.validators.Keys == st.validators.Keys
    ensures Refreshes(st, UpdateShares(s, ctx, w, tokens).value, ctx, {w})
  {
    hide Steady, SharesOk, UpdateShares, Fresh;
    UpdateSharesWeighs(s, ctx, w, tokens);
    FreshStays(st, s, ctx, s.delegators[w].shares, UpdateShares(s, ctx, w, tokens).value.delegators[w]);
  }

  lemma WeighedIs(st: Store, del: Address)
    requires DelegatorsOk(st) && del in st.delegators
    ensures Weighed(st.delegators[del]) == st.delegators[del].tokens + st.delegators[del].totalDelegated
  {
    hide BoundTokens;
    assert DelegatorOk(st, del);
  }

  // ---------- Deposits ----------

  lemma DepositRefreshes(st: Store, ctx: Context, del: Address, amount: int)
    requires ctx.Valid() && Inv(st, ctx) && Deposit(st, ctx, del, amount).Some?
    ensures Refreshes(st, Deposit(st, ctx, del, amount).value, ctx, {Principal(st.delegators, del)})
  {
    hide Inv, UpdateShares, DelegatorsOk, SharesOk, Refreshes, SameLists, Steady, ValidatorsOk;
    BooksOf(st, ctx);
    DelegatorOfBooks(st, del);
    DepositedKeeps(st, ctx, del, amount);
    var s := Deposited(st, del, amount);
    BooksOf(s, ctx);
    ValidatorsOf(s, ctx);
    InvSteady(s, ctx);
    DepositedLists(st.delegators, del, amount);
    TotalNonNegative(s, del);
    WeighedIs(s, del);
    var w := Principal(st.delegators, del);
    TotalNonNegative(s, w);
    UpdateRefreshes(st, s, ctx, w, s.delegators[w].tokens + s.delegators[w].totalDelegated);
  }

  /** A deposit fails exactly below the minimum, beyond the balance, or when a validator listed
      by the principal has been destroyed. */
  lemma DepositFails(st: Store, ctx: Context, del: Address, amount: int)
    requires ctx.Valid() && Inv(st, ctx)
    ensures Deposit(st, ctx, del, amount).None? <==>
            || amount < ctx.minDelegation || BalanceOf(st, del) < amount
            || (Principal(st.delegators, del) in st.delegators
                && Dismissed(st, st.delegators[Principal(st.delegators, del)].validators))
  {
    hide Inv, UpdateShares, DelegatorsOk, SharesOk, SameLists, Steady, ValidatorsOk, Dismissed, Weigh;
    if amount >= ctx.minDelegation && BalanceOf(st, del) >= amount {
      BooksOf(st, ctx);
      DelegatorOfBooks(st, del);
      DepositedKeeps(st, ctx, del, amount);
      var s := Deposited(st, del, amount);
      BooksOf(s, ctx);
      ValidatorsOf(s, ctx);
      InvSteady(s, ctx);
      TotalNonNegative(s, del);
      WeighedIs(s, del);
      var w := Principal(st.delegators, del);
      TotalNonNegative(s, w);
      UpdateSharesKeeps(s, ctx, w, s.delegators[w].tokens + s.delegators[w].totalDelegated);
      DismissedSame(st, s, s.delegators[w].validators);
      NobodyDismissed(st);
    }
  }

  lemma NobodyDismissed(st: Store)
    ensures !Dismissed(st, [])
  {
  }

  // ---------- Withdrawals ----------

  /** Withdrawing fails exactly below the minimum, beyond the tokens, for a registered proxy that
      would leave, and when the shares to update are on a destroyed validator.  Leaving in full
      without a proxy never fails for the last reason. */
  lemma WithdrawFails(st: Store, ctx: Context, del: Address, quantity: int)
    requires ctx.Valid() && Inv(st, ctx)
    ensures Withdraw(st, ctx, del, quantity).None? <==>
            || del !in st.delegators || quantity < ctx.minDelegation || st.delegators[del].tokens < quantity
            || (st.delegators[del].isProxy && st.delegators[del].tokens == quantity)
            || (st.delegators[del].proxy.Some? && st.delegators[del].proxy.value in st.delegators
                && Dismissed(st, st.delegators[st.delegators[del].proxy.value].validators))
            || (st.delegators[del].proxy.None? && st.delegators[del].tokens != quantity
                && Dismissed(st, st.delegators[del].validators))
  {
    hide Inv, UpdateShares, DelegatorsOk, SharesOk, Steady, ValidatorsOk, Dismissed, Weigh, Unbond, Leave, Releasing,
      ProxyTold, UpdateProxy;
    if del in st.delegators && ctx.minDelegation <= quantity <= st.delegators[del].tokens
       && !(st.delegators[del].isProxy && st.delegators[del].tokens == quantity)
    {
      var d := st.delegators[del];
      if d.proxy.Some? {
        UpdateProxyKeeps(st, ctx, del, -quantity);
      } else {
        NoProxyToUpdate(st, ctx, d, -quantity);
      }
      if UpdateProxy(st, ctx, d, -quantity).Some? {
        ProxyToldAfter(st, ctx, del, quantity);
        var s := UpdateProxy(st, ctx, d, -quantity).value;
        if d.tokens == quantity {
          LeaveKeeps(st, s, ctx, del);
          UnbondKeeps(Leave(s, ctx, del, d), ctx, del, quantity);
        } else {
          StayFails(st, ctx, del, quantity);
          if Stay(s, ctx, del, d.(tokens := d.tokens - quantity)).Some? {
            StayKeeps(st, s, ctx, del, quantity);
            UnbondKeeps(Stay(s, ctx, del, d.(tokens := d.tokens - quantity)).value, ctx, del, quantity);
          }
        }
      }
    }
  }

  lemma NoProxyToUpdate(st: Store, ctx: Context, d: Delegator, tokens: int)
    requires ctx.Valid() && d.proxy.None?
    ensures UpdateProxy(st, ctx, d, tokens) == Some(st)
  {
  }

  lemma StayFails(st: Store, ctx: Context, del: Address, quantity: int)
    requires ctx.Valid() && Inv(st, ctx) && del in st.delegators && 0 < quantity < st.delegators[del].tokens
    ensures
      var d := st.delegators[del].(tokens := st.delegators[del].tokens - quantity);
      st.delegators[del].proxy.None? ==>
        (Stay(st, ctx, del, d).None? <==> Dismissed(st, st.delegators[del].validators))
  {
    hide Inv, UpdateShares, DelegatorsOk, SharesOk, Steady, ValidatorsOk, Dismissed, Weigh, Releasing;
    if st.delegators[del].proxy.None? {
      var d := st.delegators[del].(tokens := st.delegators[del].tokens - quantity);
      ReducedKeeps(st, ctx, del, quantity);
      var x := SetDelegator(st, del, d);
      ReleasingParts(x, ctx, quantity);
      InvSteady(x, ctx);
      TotalNonNegative(x, del);
      UpdateSharesKeeps(x, ctx, del, Weighed(d));
      DismissedSame(st, x, d.validators);
    }
  }

  // ---------- MsgAddShares ----------

  /** Adding shares fails exactly without targets or with too many or repeated ones, without
      tokens or with a proxy, and when a target is missing or destroyed; otherwise it gives the
      delegator fresh shares on the targets. */
  lemma AddSharesFails(st: Store, ctx: Context, del: Address, targets: seq<Address>)
    requires ctx.Valid() && Inv(st, ctx)
    ensures AddShares(st, ctx, del, targets).None? <==>
            || targets == [] || |targets| > ctx.maxValsToAddShares || !NoRepeats(targets)
            || del !in st.delegators || st.delegators[del].proxy.Some?
            || Unfit(st, targets)
    ensures AddShares(st, ctx, del, targets).Some? ==>
              var r := AddShares(st, ctx, del, targets).value;
              Refreshes(st, r, ctx, {del})
  {
    hide Inv, Steady, SharesOk, DelegatorsOk, ValidatorsOk, Weigh, Rounds, WithdrawLoop, AddLoop, Existing, OthersOk;
    if del in st.delegators && st.delegators[del].proxy.None? {
      BooksOf(st, ctx);
      ValidatorsOf(st, ctx);
      InvSteady(st, ctx);
      TotalNonNegative(st, del);
      WithdrawSharesKeeps(st, ctx, del);
      var d := st.delegators[del];
      var st1 := WithdrawLoop(st, ctx, del, Existing(st, d.validators), d.shares);
      ServiceSame(st, st1, targets);
      if AddShares(st, ctx, del, targets).Some? {
        AddedRecord(st, st1, ctx, del, targets);
        WeighRounds(ctx, d.tokens + d.totalDelegated);
        assert targets[0] in targets && targets[0] in st.validators;
      }
    }
  }

  /** Withdrawing shares may remove validators, but only destroyed ones. */
  lemma ServiceSame(st: Store, r: Store, targets: seq<Address>)
    requires Reshares(st, r)
    ensures forall t :: t in targets ==>
              ((t !in st.validators || st.validators[t].minSelfDelegation == 0) <==>
               (t !in r.validators || r.validators[t].minSelfDelegation == 0))
  {
  }

  lemma AddedRecord(st: Store, st1: Store, ctx: Context, del: Address, targets: seq<Address>)
    requires ctx.Valid() && del in st.delegators && AddShares(st, ctx, del, targets).Some?
    requires
      var d := st.delegators[del];
      st1 == WithdrawLoop(st, ctx, del, Existing(st, d.validators), d.shares) && st1.delegators == st.delegators
    ensures
      var d := st.delegators[del];
      AddShares(st, ctx, del, targets).value.delegators ==
      st.delegators[del := d.(validators := targets, shares := Weigh(ctx, d.tokens + d.totalDelegated))]
  {
    hide WithdrawLoop, AddLoop, Existing, Weigh, NoRepeats, Unfit;
    var d := st.delegators[del];
    AddLoopDelegators(st1, ctx, del, Existing(st1, targets), Weigh(ctx, d.tokens + d.totalDelegated));
  }

  lemma {:induction false} AddLoopDelegators(st: Store, ctx: Context, del: Address, vals: seq<Validator>, shares: int)
    requires ctx.Valid()
    ensures AddLoop(st, ctx, del, vals, shares).delegators == st.delegators
    decreases |vals|
  {
    hide Power;
    if vals != [] {
      var st1 := st.(shares := st.shares[ShareKey(vals[0].operator, del) := shares]);
      AddLoopDelegators(Reweigh(st1, ctx, vals[0], vals[0].shares + shares), ctx, del, vals[1..], shares);
    }
  }

  // ---------- Proxies ----------

  /** The proxy gets fresh shares for its new total, and no other record changes. */
  lemma UpdateProxyRefreshes(st: Store, ctx: Context, del: Address, delta: int)
    requires ctx.Valid() && Inv(st, ctx)
    requires del in st.delegators && st.delegators[del].proxy.Some? && -st.delegators[del].tokens <= delta
    requires UpdateProxy(st, ctx, st.delegators[del], delta).Some?
    ensures
      var p := st.delegators[del].proxy.value;
      var r := UpdateProxy(st, ctx, st.delegators[del], delta).value;
      && p in r.delegators && p in st.delegators && Fresh(st, ctx, st.delegators[p].shares, r.delegators[p]) && p != del && p in st.delegators
      && (forall a :: a != p ==> (a in r.delegators <==> a in st.delegators))
      && (forall a :: a != p && a in st.delegators ==> r.delegators[a] == st.delegators[a])
  {
    hide Inv, ValidatorsOk, SharesOk, DelegatorsOk, Steady, UpdateShares, Fresh, SameLists, ShareTotalsOk;
    BooksOf(st, ctx);
    ValidatorsOf(st, ctx);
    ProxyCovers(st, del);
    var p := st.delegators[del].proxy.value;
    TotalNonNegative(st, p);
    var s := st.(delegators := Retotalled(st.delegators, p, delta));
    InvTotals(st, ctx);
    SameSetKeeps(st, s, ctx);
    RetotalledLists(st.delegators, p, delta);
    SharesFrame(st, s);
    UpdateSharesWeighs(s, ctx, p, s.delegators[p].tokens + s.delegators[p].totalDelegated);
    var x := UpdateShares(s, ctx, p, s.delegators[p].tokens + s.delegators[p].totalDelegated).value;
    FreshStays(st, s, ctx, st.delegators[p].shares, x.delegators[p]);
    assert UpdateProxy(st, ctx, st.delegators[del], delta) ==
           UpdateShares(s, ctx, p, s.delegators[p].totalDelegated + s.delegators[p].tokens);
  }

  lemma UnbindRefreshes(st: Store, ctx: Context, del: Address)
    requires ctx.Valid() && Inv(st, ctx) && Unbind(st, ctx, del).Some?
    ensures Refreshes(st, Unbind(st, ctx, del).value, ctx, {Principal(st.delegators, del)})
  {
    hide Inv, UpdateProxy, Fresh;
    UpdateProxyRefreshes(st, ctx, del, -st.delegators[del].tokens);
  }

  lemma WithdrawRefreshes(st: Store, ctx: Context, del: Address, quantity: int)
    requires ctx.Valid() && Inv(st, ctx) && Withdraw(st, ctx, del, quantity).Some?
    ensures Refreshes(st, Withdraw(st, ctx, del, quantity).value, ctx, {Principal(st.delegators, del)})
  {
    hide Inv, UpdateProxy, Fresh, Leave, Stay, ProxyTold, Refreshes, Unbond;
    var d := st.delegators[del];
    ProxyToldAfter(st, ctx, del, quantity);
    var s := UpdateProxy(st, ctx, d, -quantity).value;
    if d.tokens == quantity {
      LeaveRefreshes(st, s, ctx, del);
      UnbondRefreshes(st, Leave(s, ctx, del, d), ctx, del, quantity);
    } else {
      StayRefreshes(st, s, ctx, del, quantity, d.(tokens := d.tokens - quantity));
      UnbondRefreshes(st, Stay(s, ctx, del, d.(tokens := d.tokens - quantity)).value, ctx, del, quantity);
    }
  }

  lemma UnbondRefreshes(st: Store, s: Store, ctx: Context, del: Address, quantity: int)
    requires Unbond(s, ctx, del, quantity).Some? && Refreshes(st, s, ctx, {Principal(st.delegators, del)})
    ensures Refreshes(st, Unbond(s, ctx, del, quantity).value, ctx, {Principal(st.delegators, del)})
  {
    hide Weigh;
  }

  lemma LeaveRefreshes(st: Store, s: Store, ctx: Context, del: Address)
    requires ctx.Valid() && Inv(st, ctx) && del in st.delegators
    requires UpdateProxy(st, ctx, st.delegators[del], -st.delegators[del].tokens) == Some(s)
    requires ProxyTold(st, s, ctx, del, st.delegators[del].tokens)
    ensures Refreshes(st, Leave(s, ctx, del, st.delegators[del]), ctx, {Principal(st.delegators, del)})
  {
    hide Inv, UpdateProxy, Fresh, Steady, SharesOk, Reshares, WithdrawLoop, OthersOk, Reweighs;
    var d := st.delegators[del];
    ToldRecord(st, s, ctx, del, d.tokens);
    WithdrawSharesKeeps(s, ctx, del);
    if d.proxy.Some? {
      UpdateProxyRefreshes(st, ctx, del, -d.tokens);
    }
  }

  lemma StayRefreshes(st: Store, s: Store, ctx: Context, del: Address, quantity: int, d: Delegator)
    requires ctx.Valid() && Inv(st, ctx) && del in st.delegators && 0 < quantity < st.delegators[del].tokens
    requires UpdateProxy(st, ctx, st.delegators[del], -quantity) == Some(s)
    requires d == st.delegators[del].(tokens := st.delegators[del].tokens - quantity) && Stay(s, ctx, del, d).Some?
    ensures Refreshes(st, Stay(s, ctx, del, d).value, ctx, {Principal(st.delegators, del)})
  {
    hide Inv, UpdateProxy, Fresh, Steady, SharesOk, UpdateShares, DelegatorsOk, ValidatorsOk, Releasing;
    if d.proxy.Some? {
      UpdateProxyRefreshes(st, ctx, del, -quantity);
    } else {
      NoProxyToUpdate(st, ctx, d, -quantity);
      NoProxyToUpdate(st, ctx, st.delegators[del], -quantity);
      ReducedKeeps(st, ctx, del, quantity);
      var x := SetDelegator(st, del, d);
      ReleasingParts(x, ctx, quantity);
      InvSteady(x, ctx);
      TotalNonNegative(x, del);
      WeighedIs(x, del);
      UpdateRefreshes(st, x, ctx, del, Weighed(d));
    }
  }

  lemma AttachRefreshes(st: Store, ctx: Context, del: Address, d: Delegator, proxy: Address)
    requires ctx.Valid() && Inv(st, ctx) && CanBind(st, del, proxy)
    requires st.delegators[del] == d.(proxy := None)
    requires Attach(st, ctx, del, d, proxy, st.delegators[proxy]).Some?
    ensures
      var r := Attach(st, ctx, del, d, proxy, st.delegators[proxy]).value;
      && proxy in r.delegators && Fresh(st, ctx, st.delegators[proxy].shares, r.delegators[proxy])
      && (forall a :: a != proxy && a in r.delegators ==> a in st.delegators)
      && (forall a :: a != proxy && a != del && a in st.delegators ==> a in r.delegators && r.delegators[a] == st.delegators[a])
      && del in r.delegators && r.delegators[del].shares == d.shares && r.delegators[del].validators == d.validators
      && r.validators.Keys == st.validators.Keys
  {
    hide Inv, UpdateShares, DelegatorsOk, SharesOk, Steady, ValidatorsOk, Fresh;
    BoundBookKeeps(st, ctx, del, proxy);
    var s := BoundBook(st, del, proxy);
    BooksOf(s, ctx);
    ValidatorsOf(s, ctx);
    InvSteady(s, ctx);
    TotalNonNegative(s, proxy);
    var p := s.delegators[proxy];
    assert s.delegators == st.delegators[del := d.(proxy := Some(proxy), isProxy := false)][proxy := p];
    UpdateSharesWeighs(s, ctx, proxy, p.tokens + p.totalDelegated);
    FreshStays(st, s, ctx, st.delegators[proxy].shares, UpdateShares(s, ctx, proxy, p.tokens + p.totalDelegated).value.delegators[proxy]);
  }

  function OldProxy(d: Delegator): set<Address> {
    if d.proxy.Some? then {d.proxy.value} else {}
  }

  /** Binding refreshes the new proxy, and the old one if there was one. */
  lemma BindRefreshes(st: Store, ctx: Context, del: Address, proxy: Address)
    requires ctx.Valid() && Inv(st, ctx) && Bind(st, ctx, del, proxy).Some?
    ensures del in st.delegators && Refreshes(st, Bind(st, ctx, del, proxy).value, ctx, {proxy} + OldProxy(st.delegators[del]))
  {
    hide Inv, UpdateShares, Unbind, Attach, DelegatorsOk, SharesOk, Steady, ValidatorsOk, Fresh;
    var d, p := st.delegators[del], st.delegators[proxy];
    BooksOf(st, ctx);
    ValidatorsOf(st, ctx);
    InvSteady(st, ctx);
    if d.proxy == Some(proxy) {
      TotalNonNegative(st, proxy);
      UpdateSharesWeighs(st, ctx, proxy, p.tokens + p.totalDelegated);
    } else if d.proxy.Some? {
      var mid := Unbind(st, ctx, del).value;
      UnbindKeeps(st, ctx, del);
      UnbindRecords(st, ctx, del, proxy);
      UnbindRefreshes(st, ctx, del);
      AttachRefreshes(mid, ctx, del, d, proxy);
      UnbindKeys(st, ctx, del);
      ProxyCovers(st, del);
      FreshStays(st, mid, ctx, st.delegators[proxy].shares, Bind(st, ctx, del, proxy).value.delegators[proxy]);
    } else {
      AttachRefreshes(st, ctx, del, d, proxy);
    }
  }

  lemma UnbindKeys(st: Store, ctx: Context, del: Address)
    requires ctx.Valid() && Inv(st, ctx) && Unbind(st, ctx, del).Some?
    ensures Unbind(st, ctx, del).value.delegators.Keys == st.delegators.Keys
  {
    hide Inv, UpdateProxy, Fresh;
    UpdateProxyRefreshes(st, ctx, del, -st.delegators[del].tokens);
  }

  /** Registering and unregistering refresh the proxy itself. */
  lemma RegisterRefreshes(st: Store, ctx: Context, del: Address)
    requires ctx.Valid() && Inv(st, ctx) && RegProxy(st, ctx, del).Some?
    ensures Refreshes(st, RegProxy(st, ctx, del).value, ctx, {del})
  {
    hide Inv, UpdateShares, DelegatorsOk, SharesOk, Refreshes, ProxyTotalOk;
    BooksOf(st, ctx);
    DelegatorOfBooks(st, del);
    ReadyToRefresh(st, SetDelegator(st, del, st.delegators[del].(isProxy := true, proxy := None)), ctx, del);
  }

  lemma UnregisterRefreshes(st: Store, ctx: Context, del: Address)
    requires ctx.Valid() && Inv(st, ctx) && UnregProxy(st, ctx, del).Some?
    ensures Refreshes(st, UnregProxy(st, ctx, del).value, ctx, {del})
  {
    hide Inv, UpdateShares, Refreshes, BoundTo, SameLists;
    var d := st.delegators[del].(isProxy := false, totalDelegated := 0);
    UnregisteredLists(st, del, d);
    ReadyToRefresh(st, SetDelegator(ClearProxy(st, del), del, d), ctx, del);
  }

  lemma ReadyToRefresh(st: Store, s: Store, ctx: Context, del: Address)
    requires ctx.Valid() && Inv(st, ctx) && SameSet(st, s) && SameLists(st.delegators, s.delegators)
    requires del in st.delegators && del in s.delegators && s.delegators[del].tokens == st.delegators[del].tokens
    requires s.delegators[del].totalDelegated == 0 && UpdateShares(s, ctx, del, s.delegators[del].tokens).Some?
    ensures Refreshes(st, UpdateShares(s, ctx, del, s.delegators[del].tokens).value, ctx, {del})
  {
    hide Inv, UpdateShares, DelegatorsOk, SharesOk, Refreshes, SameLists, SameSet, Steady, ValidatorsOk, ShareTotalsOk;
    BooksOf(st, ctx);
    ValidatorsOf(st, ctx);
    InvTotals(st, ctx);
    SameSetKeeps(st, s, ctx);
    SameSetRecords(st, s);
    SharesFrame(st, s);
    TotalNonNegative(st, del);
    UpdateRefreshes(st, s, ctx, del, s.delegators[del].tokens);
  }

  lemma SameSetRecords(st: Store, s: Store)
    requires SameSet(st, s)
    ensures s.validators == st.validators && s.shares == st.shares
  {
  }
}
