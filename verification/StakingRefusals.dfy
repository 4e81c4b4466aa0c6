/** Exactly when a message fails, in terms of the store before it. */
module StakingRefusals {
  import opened EvmTypes
  import opened Coins
  import opened Sums
  import opened StakingStore
  import opened StakingInvariants
  import opened ShareUpdates
  import opened ShareMoves
  import opened Proxies
  import opened StakingMessages
  import opened ProxyMessages
  import opened DelegatorMessages
  import opened ValidatorMessages
  import opened EndBlocks
  import opened StakingRuns
  import opened StakingWeights
  import opened StakingFrames

  /** A delegator lists a validator that has been destroyed and still exists. */
  ghost predicate Stuck(st: Store, a: Address) {
    a in st.delegators && Dismissed(st, st.delegators[a].validators)
  }

  /** A store with the same validators and lists, about to have a delegator's shares updated. */
  lemma WrittenFails(st: Store, s: Store, ctx: Context, del: Address, tokens: int)
    requires ctx.Valid() && Inv(st, ctx) && SameSet(st, s) && SameLists(st.delegators, s.delegators)
    requires del in st.delegators && del in s.delegators && tokens >= 0
    ensures UpdateShares(s, ctx, del, tokens).None? <==> Stuck(st, del)
  {
    hide Inv, UpdateShares, DelegatorsOk, SharesOk, Steady, ValidatorsOk, ShareTotalsOk, Dismissed, Reshares, Reweighs;
    BooksOf(st, ctx);
    ValidatorsOf(st, ctx);
    InvTotals(st, ctx);
    SameSetKeeps(st, s, ctx);
    SharesFrame(st, s);
    UpdateSharesKeeps(s, ctx, del, tokens);
    DismissedSame(st, s, s.delegators[del].validators);
  }

  /** Unbinding fails exactly without a proxy, and when the proxy lists a destroyed validator. */
  lemma UnbindFails(st: Store, ctx: Context, del: Address)
    requires ctx.Valid() && Inv(st, ctx)
    ensures Unbind(st, ctx, del).None? <==>
            del !in st.delegators || st.delegators[del].proxy.None? || Stuck(st, st.delegators[del].proxy.value)
  {
    hide Inv, UpdateProxy, Dismissed, Steady, SharesOk, Reshares, Reweighs;
    if del in st.delegators && st.delegators[del].proxy.Some? {
      UpdateProxyKeeps(st, ctx, del, -st.delegators[del].tokens);
    }
  }

  /** Registering fails exactly for an account without tokens, a proxy or a bound delegator, and
      unregistering exactly for one that is no proxy; both when a listed validator was destroyed. */
  lemma RegisterFails(st: Store, ctx: Context, a: Address)
    requires ctx.Valid() && Inv(st, ctx)
    ensures RegProxy(st, ctx, a).None? <==>
            a !in st.delegators || st.delegators[a].isProxy || st.delegators[a].proxy.Some? || Stuck(st, a)
    ensures UnregProxy(st, ctx, a).None? <==> a !in st.delegators || !st.delegators[a].isProxy || Stuck(st, a)
  {
    hide Inv, UpdateShares, DelegatorsOk, SharesOk, BoundTo, SameLists, Dismissed;
    if a in st.delegators {
      BooksOf(st, ctx);
      TotalNonNegative(st, a);
      var d := st.delegators[a];
      RegisteredLists(st, a);
      WrittenFails(st, SetDelegator(st, a, d.(isProxy := true, proxy := None)), ctx, a, d.tokens);
      var d' := d.(isProxy := false, totalDelegated := 0);
      UnregisteredLists(st, a, d');
      WrittenFails(st, SetDelegator(ClearProxy(st, a), a, d'), ctx, a, d'.tokens);
    }
  }

  lemma RegisteredLists(st: Store, a: Address)
    requires a in st.delegators
    ensures SameLists(st.delegators, st.delegators[a := st.delegators[a].(isProxy := true, proxy := None)])
  {
  }

  lemma AttachFails(st: Store, ctx: Context, del: Address, d: Delegator, proxy: Address)
    requires ctx.Valid() && Inv(st, ctx) && CanBind(st, del, proxy) && st.delegators[del] == d.(proxy := None)
    ensures Attach(st, ctx, del, d, proxy, st.delegators[proxy]).None? <==> Stuck(st, proxy)
  {
    hide Inv, UpdateShares, DelegatorsOk, SharesOk, SameLists, Dismissed;
    BoundBookKeeps(st, ctx, del, proxy);
    var s := BoundBook(st, del, proxy);
    BooksOf(s, ctx);
    TotalNonNegative(s, proxy);
    var p := s.delegators[proxy];
    assert s.delegators == st.delegators[del := d.(proxy := Some(proxy), isProxy := false)][proxy := p];
    BoundLists(st, del, proxy);
    WrittenFails(st, s, ctx, proxy, p.totalDelegated + p.tokens);
  }

  lemma StuckSame(st: Store, r: Store, a: Address)
    requires Kept(st, r) && r.validators.Keys == st.validators.Keys
    requires a in st.delegators && a in r.delegators && r.delegators[a] == st.delegators[a]
    ensures Stuck(r, a) <==> Stuck(st, a)
  {
  }

  /** What binding asks of the two accounts. */
  predicate MayBind(st: Store, del: Address, proxy: Address) {
    && del != proxy && del in st.delegators && proxy in st.delegators
    && st.delegators[del].shares == 0 && !st.delegators[del].isProxy && st.delegators[proxy].isProxy
  }

  /** Binding fails exactly when the two accounts are unfit, and when the new proxy or another one
      to be left lists a destroyed validator. */
  lemma BindFails(st: Store, ctx: Context, del: Address, proxy: Address)
    requires ctx.Valid() && Inv(st, ctx)
    ensures Bind(st, ctx, del, proxy).None? <==>
            || !MayBind(st, del, proxy) || Stuck(st, proxy)
            || (st.delegators[del].proxy.Some? && Stuck(st, st.delegators[del].proxy.value))
  {
    hide Inv, UpdateShares, Unbind, Attach, DelegatorsOk, SharesOk, Stuck, SameLists;
    if MayBind(st, del, proxy) {
      var d, p := st.delegators[del], st.delegators[proxy];
      BooksOf(st, ctx);
      TotalNonNegative(st, del);
      TotalNonNegative(st, proxy);
      if d.proxy == Some(proxy) {
        SameListsSelf(st.delegators);
        WrittenFails(st, st, ctx, proxy, p.totalDelegated + p.tokens);
      } else if d.proxy.Some? {
        UnbindFails(st, ctx, del);
        if Unbind(st, ctx, del).Some? {
          RebindFails(st, ctx, del, proxy);
        }
      } else {
        AttachFails(st, ctx, del, d, proxy);
      }
    }
  }

  lemma RebindFails(st: Store, ctx: Context, del: Address, proxy: Address)
    requires ctx.Valid() && Inv(st, ctx) && MayBind(st, del, proxy) && Unbind(st, ctx, del).Some?
    requires st.delegators[del].proxy != Some(proxy)
    ensures
      var d, p := st.delegators[del], st.delegators[proxy];
      Attach(Unbind(st, ctx, del).value, ctx, del, d, proxy, p).None? <==> Stuck(st, proxy)
  {
    hide Inv, Unbind, Attach, Stuck, Kept, Named;
    var mid := Unbind(st, ctx, del).value;
    UnbindKeeps(st, ctx, del);
    UnbindRecords(st, ctx, del, proxy);
    InvNamed(st, ctx);
    UnbindKept(st, ctx, del);
    StuckSame(st, mid, proxy);
    AttachFails(mid, ctx, del, st.delegators[del], proxy);
  }

  lemma SameListsSelf(ds: map<Address, Delegator>)
    ensures SameLists(ds, ds)
  {
  }

  /** Creating a validator fails exactly on an existing one, below the least self delegation and
      beyond the balance. */
  lemma CreateFails(st: Store, ctx: Context, a: Address, msd: nat)
    requires ctx.Valid()
    ensures CreateValidator(st, ctx, a, msd).None? <==> a in st.validators || msd < 500 * ONE || BalanceOf(st, a) < msd
  {
    hide Power, Reweigh;
  }

  // ---------- Every message ----------

  ghost predicate Refused(st: Store, ctx: Context, m: Message) {
    var w := Principal(st.delegators, m.del);
    match m
    case MsgDeposit(del, amount) => amount < ctx.minDelegation || BalanceOf(st, del) < amount || Stuck(st, w)
    case MsgWithdraw(del, amount) =>
      || del !in st.delegators || amount < ctx.minDelegation || st.delegators[del].tokens < amount
      || (st.delegators[del].tokens == amount && st.delegators[del].isProxy)
      || (!(st.delegators[del].tokens == amount && w == del) && Stuck(st, w))
    case MsgAddShares(del, targets) =>
      || targets == [] || |targets| > ctx.maxValsToAddShares || !NoRepeats(targets)
      || del !in st.delegators || st.delegators[del].proxy.Some? || Unfit(st, targets)
    case MsgBindProxy(del, proxy) => !MayBind(st, del, proxy) || Stuck(st, proxy) || (w != del && Stuck(st, w))
    case MsgUnbindProxy(del) => w == del || Stuck(st, w)
    case MsgRegProxy(del, reg) => w != del || del !in st.delegators || st.delegators[del].isProxy == reg || Stuck(st, del)
    case MsgCreateValidator(del, msd) => del in st.validators || msd < 500 * ONE || BalanceOf(st, del) < msd
    case MsgDestroyValidator(del) => del !in st.validators || st.validators[del].minSelfDelegation == 0
    case Jailing(del) => del !in st.validators || st.validators[del].jailed
    case Unjailing(del) => del !in st.validators || !st.validators[del].jailed
  }

  /** A message fails if and only if it is refused. */
  lemma MessageFails(st: Store, ctx: Context, m: Message)
    requires ctx.Valid() && Inv(st, ctx)
    ensures Handle(st, ctx, m).None? <==> Refused(st, ctx, m)
  {
    hide Inv, Deposit, Withdraw, AddShares, Bind, Unbind, RegProxy, UnregProxy, CreateValidator, DestroyValidator, Jail,
      Unjail, Unfit, Dismissed, MayBind, Refreshes;
    PrincipalIs(st, ctx, m.del);
    match m {
      case MsgDeposit(a, amount) => DepositFails(st, ctx, a, amount);
      case MsgWithdraw(a, amount) => WithdrawFails(st, ctx, a, amount);
      case MsgAddShares(a, targets) => AddSharesFails(st, ctx, a, targets);
      case MsgBindProxy(a, proxy) => BindFails(st, ctx, a, proxy); MayBindListed(st, a, proxy);
      case MsgUnbindProxy(a) => UnbindFails(st, ctx, a);
      case MsgRegProxy(a, reg) => RegisterFails(st, ctx, a);
      case MsgCreateValidator(a, msd) => CreateFails(st, ctx, a, msd);
      case MsgDestroyValidator(a) => DestroyKeeps(st, ctx, a);
      case Jailing(a) => JailExact(st, ctx, a);
      case Unjailing(a) => UnjailExact(st, ctx, a);
    }
  }

  lemma MayBindListed(st: Store, del: Address, proxy: Address)
    ensures MayBind(st, del, proxy) ==> del in st.delegators
  {
  }

  /** A bound delegator is no proxy, and its proxy is another account. */
  lemma PrincipalIs(st: Store, ctx: Context, del: Address)
    requires ctx.Valid() && Inv(st, ctx)
    ensures del in st.delegators && st.delegators[del].proxy.Some? ==>
              && !st.delegators[del].isProxy && st.delegators[del].proxy.value != del
              && st.delegators[del].proxy.value in st.delegators
  {
    hide Inv, DelegatorsOk, SharesOk, BoundTokens;
    if del in st.delegators && st.delegators[del].proxy.Some? {
      BooksOf(st, ctx);
      DelegatorOfBooks(st, del);
      DelegatorOfBooks(st, st.delegators[del].proxy.value);
    }
  }
}
