/** Lists stay alive: when every weighing gives positive shares, each delegator with a list has
    shares and every validator it lists exists. */
module StakingLive {
  import opened EvmTypes
  import opened Coins
  import opened Sums
  import opened StakingStore
  import opened StakingInvariants
  import opened ShareUpdates
  import opened ShareMoves
  import opened Proxies
  import opened StakingMessages
  import opened ProxyMessages
  import opened DelegatorMessages
  import opened ValidatorMessages
  import opened ValidatorSet
  import opened EpochElections
  import opened EndBlocks
  import opened StakingRuns
  import opened StakingMeanings
  import opened StakingWeights

  /** Whoever lists validators has shares, and all of them exist. */
  ghost predicate Live(st: Store) {
    forall a :: a in st.delegators ==> LiveAt(st, st.delegators[a])
  }

  ghost predicate LiveAt(st: Store, d: Delegator) {
    (d.validators != [] ==> d.shares > 0) && forall v :: v in d.validators ==> v in st.validators
  }

  // ---------- What a message weighs ----------

  function Backing(st: Store, a: Address): int {
    if a in st.delegators then st.delegators[a].tokens + st.delegators[a].totalDelegated else 0
  }

  function TokensOf(st: Store, a: Address): int {
    if a in st.delegators then st.delegators[a].tokens else 0
  }

  /** The delegators whose shares a message computes, and the tokens they are computed from. */
  function Weighings(st: Store, m: Message): map<Address, int> {
    var w := Principal(st.delegators, m.del);
    match m
    case MsgDeposit(del, amount) => map[w := Backing(st, w) + amount]
    case MsgWithdraw(del, amount) => if w == del && TokensOf(st, del) == amount then map[] else map[w := Backing(st, w) - amount]
    case MsgAddShares(del, _) => map[del := Backing(st, del)]
    case MsgBindProxy(del, proxy) =>
      if w == proxy then map[proxy := Backing(st, proxy)]
      else (if w == del then map[] else map[w := Backing(st, w) - TokensOf(st, del)])[proxy := Backing(st, proxy) + TokensOf(st, del)]
    case MsgUnbindProxy(del) => map[w := Backing(st, w) - TokensOf(st, del)]
    case MsgRegProxy(del, _) => map[del := TokensOf(st, del)]
    case _ => map[]
  }

  /** The list of a delegator after the message. */
  function ListAfter(st: Store, m: Message, a: Address): seq<Address> {
    if m.MsgAddShares? && a == m.del then m.targets
    else if a in st.delegators then st.delegators[a].validators else []
  }

  /** Every weighing of a delegator with a list gives it shares; visible before the call. */
  ghost predicate Weighty(st: Store, ctx: Context, m: Message) {
    forall a :: a in Weighings(st, m) && ListAfter(st, m, a) != [] ==> Weigh(ctx, Weighings(st, m)[a]) > 0
  }

  // ---------- Tokens and totals after a message ----------

  /** Only the tokens and the proxy of x may differ. */
  ghost predicate SameBonds(ds: map<Address, Delegator>, ds': map<Address, Delegator>, x: Address) {
    forall a :: a != x ==> (a in ds <==> a in ds') && (a in ds ==> ds'[a].tokens == ds[a].tokens && ds'[a].proxy == ds[a].proxy)
  }

  lemma BondSums(ds: map<Address, Delegator>, ds': map<Address, Delegator>, x: Address, q: Address)
    requires SameBonds(ds, ds', x)
    ensures Sum(BoundTokens(ds', q)) == Sum(BoundTokens(ds, q)) - Contribution(ds, x, q) + Contribution(ds', x, q)
  {
    hide Sum;
    var b, b' := BoundTokens(ds, q), BoundTokens(ds', q);
    SumRemove(b, x);
    SumRemove(b', x);
    assert b - {x} == b' - {x};
  }

  /** A delegator shows tokens exactly when it has a record. */
  lemma Shows(st: Store, a: Address)
    requires DelegatorsOk(st)
    ensures a in st.delegators <==> StakeOf(st.delegators, a).tokens > 0
  {
    hide BoundTokens;
    assert a in st.delegators ==> DelegatorOk(st, a);
  }

  lemma MeansBonds(st: Store, ctx: Context, m: Message)
    requires ctx.Valid() && Inv(st, ctx) && Handle(st, ctx, m).Some? && !(m.MsgRegProxy? && !m.reg)
    requires Inv(Handle(st, ctx, m).value, ctx)
    ensures SameBonds(st.delegators, Handle(st, ctx, m).value.delegators, m.del)
  {
    hide Inv, Handle, DelegatorsOk, FaceAfter;
    var r := Handle(st, ctx, m).value;
    BooksOf(st, ctx);
    BooksOf(r, ctx);
    forall a | a != m.del
      ensures StakeOf(r.delegators, a) == StakeOf(st.delegators, a)
      ensures a in st.delegators <==> a in r.delegators
    {
      MessageMeans(st, ctx, m, a);
      OthersUnmoved(m, ctx, a, FaceOf(st, a));
      Shows(st, a);
      Shows(r, a);
    }
  }

  /** Apart from unregistering, a message shows on the stake of its sender alone. */
  lemma OthersUnmoved(m: Message, ctx: Context, a: Address, f: Face)
    requires a != m.del && !(m.MsgRegProxy? && !m.reg)
    ensures FaceAfter(m, ctx, a, f).stake == f.stake
  {
  }

  function TotalFor(st: Store, a: Address): int {
    if a in st.delegators then st.delegators[a].totalDelegated else 0
  }

  /** What a stake adds to the total of q. */
  function Adds(stake: Stake, q: Address): int {
    if stake.proxy == Some(q) then stake.tokens else 0
  }

  /** Totals follow the stake of the sender. */
  lemma TotalAfter(st: Store, ctx: Context, m: Message, a: Address)
    requires ctx.Valid() && Inv(st, ctx) && Handle(st, ctx, m).Some? && !(m.MsgRegProxy? && !m.reg)
    requires Inv(Handle(st, ctx, m).value, ctx)
    ensures
      var r := Handle(st, ctx, m).value;
      a in r.delegators ==>
        TotalFor(r, a) ==
        TotalFor(st, a) - Adds(StakeOf(st.delegators, m.del), a) + Adds(StakeOf(r.delegators, m.del), a)
  {
    hide Inv, Handle, DelegatorsOk, Sum, BoundTokens, SameBonds;
    var r := Handle(st, ctx, m).value;
    if a in r.delegators {
      BooksOf(st, ctx);
      BooksOf(r, ctx);
      MeansBonds(st, ctx, m);
      BondSums(st.delegators, r.delegators, m.del, a);
      TotalIsBound(st, a);
      TotalIsBound(r, a);
    }
  }

  lemma TotalIsBound(st: Store, a: Address)
    requires DelegatorsOk(st)
    ensures TotalFor(st, a) == Sum(BoundTokens(st.delegators, a))
  {
    if a in st.delegators {
      assert ProxyTotalOk(st, a);
    } else {
      NobodyBound(st, a);
    }
  }

  /** What is weighed is what backs the delegator afterwards. */
  lemma WeighedIsBacking(st: Store, ctx: Context, m: Message, a: Address)
    requires ctx.Valid() && Inv(st, ctx) && Handle(st, ctx, m).Some? && a in Weighings(st, m)
    requires Inv(Handle(st, ctx, m).value, ctx) && a in Handle(st, ctx, m).value.delegators
    ensures Backing(Handle(st, ctx, m).value, a) == Weighings(st, m)[a]
  {
    hide Inv, Handle, DelegatorsOk, BoundTokens, ProxyTotalOk, UndelegationOf, SelfOf, BalanceOf;
    var r := Handle(st, ctx, m).value;
    BooksOf(st, ctx);
    BooksOf(r, ctx);
    MessageMeans(st, ctx, m, a);
    MessageMeans(st, ctx, m, m.del);
    DelegatorOfBooks(st, m.del);
    SenderKnown(st, ctx, m);
    if m.MsgRegProxy? && !m.reg {
      DelegatorOfBooks(r, a);
    } else {
      TotalAfter(st, ctx, m, a);
      if m.MsgRegProxy? {
        DelegatorOfBooks(st, a);
      }
    }
  }

  /** The sender of a message that weighs something has a record, or deposits for the first time. */
  lemma SenderKnown(st: Store, ctx: Context, m: Message)
    requires ctx.Valid() && Handle(st, ctx, m).Some?
    ensures m.MsgWithdraw? || m.MsgAddShares? || m.MsgBindProxy? || m.MsgUnbindProxy? || m.MsgRegProxy? ==> m.del in st.delegators
    ensures m.MsgUnbindProxy? ==> st.delegators[m.del].proxy.Some?
    ensures m.MsgBindProxy? ==> m.del != m.proxy && m.proxy in st.delegators
    ensures m.MsgWithdraw? ==> m.amount <= st.delegators[m.del].tokens && m.amount > 0
    ensures m.MsgRegProxy? && m.reg ==> !st.delegators[m.del].isProxy && st.delegators[m.del].proxy.None?
    ensures m.MsgDeposit? ==> m.amount > 0
  {
    hide UpdateShares, UpdateProxy, WithdrawLoop, AddLoop;
  }

  // ---------- Shares after a message ----------

  /** A message refreshes exactly the delegators it weighs. */
  lemma MessageRefreshes(st: Store, ctx: Context, m: Message)
    requires ctx.Valid() && Inv(st, ctx) && Handle(st, ctx, m).Some?
    ensures Refreshes(st, Handle(st, ctx, m).value, ctx, Weighings(st, m).Keys)
  {
    hide Inv, Fresh, Refreshes, Weighings, Deposit, Withdraw, AddShares, Bind, Unbind, RegProxy, UnregProxy, Principal;
    WeighingKeys(st, m);
    match m
    case MsgDeposit(del, amount) => DepositRefreshes(st, ctx, del, amount);
    case MsgWithdraw(del, amount) => WithdrawRefreshesKeys(st, ctx, del, amount);
    case MsgAddShares(del, targets) => AddSharesFails(st, ctx, del, targets);
    case MsgBindProxy(del, proxy) => BindRefreshesKeys(st, ctx, del, proxy);
    case MsgUnbindProxy(del) => UnbindRefreshes(st, ctx, del);
    case MsgRegProxy(del, reg) => if reg { RegisterRefreshes(st, ctx, del); } else { UnregisterRefreshes(st, ctx, del); }
    case _ => NothingRefreshed(st, ctx, m);
  }

  lemma WeighingKeys(st: Store, m: Message)
    ensures m.MsgDeposit? || m.MsgUnbindProxy? ==> Weighings(st, m).Keys == {Principal(st.delegators, m.del)}
    ensures m.MsgAddShares? || m.MsgRegProxy? ==> Weighings(st, m).Keys == {m.del}
    ensures m.MsgCreateValidator? || m.MsgDestroyValidator? || m.Jailing? || m.Unjailing? ==> Weighings(st, m).Keys == {}
  {
    hide Principal, Backing, TokensOf;
  }

  lemma WithdrawRefreshesKeys(st: Store, ctx: Context, del: Address, amount: int)
    requires ctx.Valid() && Inv(st, ctx) && Withdraw(st, ctx, del, amount).Some?
    ensures Refreshes(st, Withdraw(st, ctx, del, amount).value, ctx, Weighings(st, MsgWithdraw(del, amount)).Keys)
  {
    hide Inv, Fresh, Withdraw, Backing;
    WithdrawRefreshes(st, ctx, del, amount);
    var r := Withdraw(st, ctx, del, amount).value;
    WithdrawKeeps(st, ctx, del, amount);
    BooksOf(r, ctx);
    Shows(r, del);
    WithdrawMeans(st, ctx, del, amount, del);
  }

  lemma BindRefreshesKeys(st: Store, ctx: Context, del: Address, proxy: Address)
    requires ctx.Valid() && Inv(st, ctx) && Bind(st, ctx, del, proxy).Some?
    ensures Refreshes(st, Bind(st, ctx, del, proxy).value, ctx, Weighings(st, MsgBindProxy(del, proxy)).Keys)
  {
    hide Inv, Fresh, Refreshes, Backing, Bind, DelegatorsOk, ProxyTotalOk;
    BindRefreshes(st, ctx, del, proxy);
    BooksOf(st, ctx);
    DelegatorOfBooks(st, del);
    assert Weighings(st, MsgBindProxy(del, proxy)).Keys == {proxy} + OldProxy(st.delegators[del]);
  }

  lemma NothingRefreshed(st: Store, ctx: Context, m: Message)
    requires ctx.Valid() && Handle(st, ctx, m).Some?
    requires m.MsgCreateValidator? || m.MsgDestroyValidator? || m.Jailing? || m.Unjailing?
    ensures Handle(st, ctx, m).value.delegators == st.delegators && Refreshes(st, Handle(st, ctx, m).value, ctx, {})
  {
    hide Power;
  }

  // ---------- Removed validators ----------

  /** Whoever lists, after the message, a validator that the message removed has no shares. */
  ghost predicate RemovesIdle(st: Store, r: Store) {
    forall a, v :: a in r.delegators && v in r.delegators[a].validators && v in st.validators && v !in r.validators ==>
      r.delegators[a].shares == 0
  }

  lemma KeysKeptIdle(st: Store, r: Store)
    requires r.validators.Keys == st.validators.Keys
    ensures RemovesIdle(st, r)
  {
  }

  /** A validator without shares is listed by nobody with shares. */
  lemma ShareslessIdle(st: Store, v: Address, a: Address)
    requires SharesOk(st) && v in st.validators && ShareSum(st.shares, v) == 0
    requires a in st.delegators && v in st.delegators[a].validators
    ensures st.delegators[a].shares == 0
  {
    hide ShareSum, ShareTotalsOk;
    var k := ShareKey(v, a);
    SharesHoused(st);
    forall j
      ensures ShareAt(st.shares, j) >= 0
    {
      assert Housed(st);
    }
    NoEntries(st.shares, v, k);
    assert ShareAt(st.shares, k) == Recorded(st, k);
  }

  lemma DestroyIdle(st: Store, ctx: Context, del: Address)
    requires ctx.Valid() && Inv(st, ctx) && DestroyValidator(st, ctx, del).Some?
    ensures RemovesIdle(st, DestroyValidator(st, ctx, del).value)
  {
    hide Inv, SharesOk, Unbond, ShareSum, Power;
    SharesOf(st, ctx);
    OperatorOf(st, ctx, del);
    var r := DestroyValidator(st, ctx, del).value;
    UnbondRest(st, ctx, del, st.validators[del].minSelfDelegation);
    TotalOf(st, del);
    forall a, v | a in r.delegators && v in r.delegators[a].validators && v in st.validators && v !in r.validators
      ensures r.delegators[a].shares == 0
    {
      ShareslessIdle(st, v, a);
    }
  }

  lemma UnbondRest(st: Store, ctx: Context, del: Address, quantity: int)
    requires Unbond(st, ctx, del, quantity).Some?
    ensures
      var r := Unbond(st, ctx, del, quantity).value;
      r.validators == st.validators && r.delegators == st.delegators && r.shares == st.shares
  {
  }

  /** Withdrawing a delegator's shares removes only what nobody else has shares on. */
  lemma WithdrawnIdle(st: Store, ctx: Context, del: Address, a: Address, v: Address)
    requires ctx.Valid() && Steady(st, ctx) && SharesOk(st) && del in st.delegators
    requires a != del && a in st.delegators && v in st.delegators[a].validators && v in st.validators
    ensures
      var d := st.delegators[del];
      var w := WithdrawLoop(st, ctx, del, Existing(st, d.validators), d.shares);
      v !in w.validators ==> st.delegators[a].shares == 0
  {
    hide Steady, SharesOk, WithdrawLoop, Reshares, Housed, OthersOk;
    var d := st.delegators[del];
    WithdrawSharesKeeps(st, ctx, del);
    var w := WithdrawLoop(st, ctx, del, Existing(st, d.validators), d.shares);
    var k := ShareKey(v, a);
    HousedAt(w, k);
    EntryIs(st, k);
    assert ShareAt(w.shares, k) == if k.delegator == del then 0 else ShareAt(st.shares, k);
  }

  lemma EntryIs(st: Store, k: ShareKey)
    requires SharesOk(st)
    ensures ShareAt(st.shares, k) == Recorded(st, k)
  {
    hide ShareTotalsOk;
  }

  lemma WithdrawIdle(st: Store, ctx: Context, del: Address, quantity: int)
    requires ctx.Valid() && Inv(st, ctx) && Withdraw(st, ctx, del, quantity).Some?
    ensures RemovesIdle(st, Withdraw(st, ctx, del, quantity).value)
  {
    hide Inv, UpdateProxy, Leave, Stay, Unbond, RemovesIdle, ProxyTold;
    var d := st.delegators[del];
    ProxyToldAfter(st, ctx, del, quantity);
    var s := UpdateProxy(st, ctx, d, -quantity).value;
    UpdateProxyValidators(st, ctx, del, quantity);
    if d.tokens == quantity {
      LeaveIdle(st, s, ctx, del);
      UnbondRest(Leave(s, ctx, del, d), ctx, del, quantity);
      IdleFrame(st, Leave(s, ctx, del, d), Withdraw(st, ctx, del, quantity).value);
    } else {
      StayValidators(st, s, ctx, del, quantity);
      UnbondRest(Stay(s, ctx, del, d.(tokens := d.tokens - quantity)).value, ctx, del, quantity);
      KeysKeptIdle(st, Withdraw(st, ctx, del, quantity).value);
    }
  }

  lemma IdleFrame(st: Store, s: Store, r: Store)
    requires RemovesIdle(st, s) && r.validators == s.validators && r.delegators == s.delegators
    ensures RemovesIdle(st, r)
  {
  }

  lemma UpdateProxyValidators(st: Store, ctx: Context, del: Address, quantity: int)
    requires ctx.Valid() && Inv(st, ctx) && del in st.delegators && quantity <= st.delegators[del].tokens
    requires UpdateProxy(st, ctx, st.delegators[del], -quantity).Some?
    ensures UpdateProxy(st, ctx, st.delegators[del], -quantity).value.validators.Keys == st.validators.Keys
  {
    hide Inv, UpdateProxy;
    if st.delegators[del].proxy.Some? {
      UpdateProxyKeeps(st, ctx, del, -quantity);
    } else {
      NoProxyToUpdate(st, ctx, st.delegators[del], -quantity);
    }
  }

  lemma LeaveIdle(st: Store, s: Store, ctx: Context, del: Address)
    requires ctx.Valid() && del in st.delegators && ProxyTold(st, s, ctx, del, st.delegators[del].tokens)
    requires s.validators.Keys == st.validators.Keys
    ensures RemovesIdle(st, Leave(s, ctx, del, st.delegators[del]))
  {
    hide Steady, SharesOk, WithdrawLoop, Reshares, Reweighs, OthersOk, Housed;
    var d := st.delegators[del];
    ToldRecord(st, s, ctx, del, d.tokens);
    WithdrawSharesKeeps(s, ctx, del);
    var r := Leave(s, ctx, del, d);
    forall a, v | a in r.delegators && v in r.delegators[a].validators && v in st.validators && v !in r.validators
      ensures r.delegators[a].shares == 0
    {
      WithdrawnIdle(s, ctx, del, a, v);
    }
  }

  lemma StayValidators(st: Store, s: Store, ctx: Context, del: Address, quantity: int)
    requires ctx.Valid() && Inv(st, ctx) && del in st.delegators && 0 < quantity < st.delegators[del].tokens
    requires UpdateProxy(st, ctx, st.delegators[del], -quantity) == Some(s) && s.validators.Keys == st.validators.Keys
    requires Stay(s, ctx, del, st.delegators[del].(tokens := st.delegators[del].tokens - quantity)).Some?
    ensures Stay(s, ctx, del, st.delegators[del].(tokens := st.delegators[del].tokens - quantity)).value.validators.Keys == st.validators.Keys
  {
    hide Inv, UpdateProxy, UpdateShares, Releasing, DelegatorsOk;
    var d := st.delegators[del];
    var d' := d.(tokens := d.tokens - quantity);
    if d.proxy.None? {
      NoProxyToUpdate(st, ctx, d, -quantity);
      ReducedKeeps(st, ctx, del, quantity);
      ReleasingParts(SetDelegator(st, del, d'), ctx, quantity);
      TotalNonNegative(SetDelegator(st, del, d'), del);
      UpdateSharesReleasing(SetDelegator(st, del, d'), ctx, del, Weighed(d'), quantity);
    }
  }

  /** What adding shares leaves of the store after the withdrawal. */
  lemma AddSharesParts(st: Store, st1: Store, ctx: Context, del: Address, targets: seq<Address>)
    requires ctx.Valid() && Steady(st1, ctx) && del in st.delegators && AddShares(st, ctx, del, targets).Some?
    requires
      var d := st.delegators[del];
      st1 == WithdrawLoop(st, ctx, del, Existing(st, d.validators), d.shares) && st1.delegators == st.delegators
    requires forall k: ShareKey :: k.delegator == del ==> ShareAt(st1.shares, k) == 0
    ensures
      var r := AddShares(st, ctx, del, targets).value;
      && r.validators.Keys == st1.validators.Keys && (forall t :: t in targets ==> t in r.validators)
      && (forall a :: a in r.delegators && a != del ==> a in st.delegators && r.delegators[a] == st.delegators[a])
      && del in r.delegators && r.delegators[del].validators == targets
  {
    hide Steady, WithdrawLoop, AddLoop, Existing, Weigh;
    var d := st.delegators[del];
    AddedRecord(st, st1, ctx, del, targets);
    AddLoopKeys(st1, ctx, del, targets, Weigh(ctx, d.tokens + d.totalDelegated));
  }

  lemma AddSharesIdle(st: Store, ctx: Context, del: Address, targets: seq<Address>)
    requires ctx.Valid() && Inv(st, ctx) && AddShares(st, ctx, del, targets).Some?
    ensures RemovesIdle(st, AddShares(st, ctx, del, targets).value)
  {
    AddSharesSender(st, ctx, del, targets);
    hide Inv, ValidatorsOk, Steady, SharesOk, WithdrawLoop, AddShares, Existing, Reshares, OthersOk, Housed;
    BooksOf(st, ctx);
    ValidatorsOf(st, ctx);
    InvSteady(st, ctx);
    var d := st.delegators[del];
    WithdrawSharesKeeps(st, ctx, del);
    var st1 := WithdrawLoop(st, ctx, del, Existing(st, d.validators), d.shares);
    AddSharesParts(st, st1, ctx, del, targets);
    var r := AddShares(st, ctx, del, targets).value;
    forall a, v | a in r.delegators && v in r.delegators[a].validators && v in st.validators && v !in r.validators
      ensures r.delegators[a].shares == 0
    {
      assert a != del;
      WithdrawnIdle(st, ctx, del, a, v);
    }
  }

  lemma AddSharesSender(st: Store, ctx: Context, del: Address, targets: seq<Address>)
    requires ctx.Valid() && AddShares(st, ctx, del, targets).Some?
    ensures del in st.delegators
  {
    hide WithdrawLoop, AddLoop, Existing, Weigh, Unfit;
  }

  lemma AddLoopKeys(st: Store, ctx: Context, del: Address, targets: seq<Address>, shares: int)
    requires ctx.Valid() && Steady(st, ctx) && NoRepeats(targets)
    requires forall k: ShareKey :: k.delegator == del ==> ShareAt(st.shares, k) == 0
    ensures AddLoop(st, ctx, del, Existing(st, targets), shares).validators.Keys == st.validators.Keys
  {
    hide Given, AddLoop, Reshares, Has;
    SteadyRecords(st, ctx);
    ExistingMeans(st, targets);
    AddLoopSteady(st, ctx, del, Existing(st, targets), shares);
  }

  lemma MessageIdle(st: Store, ctx: Context, m: Message)
    requires ctx.Valid() && Inv(st, ctx) && Handle(st, ctx, m).Some?
    ensures RemovesIdle(st, Handle(st, ctx, m).value)
  {
    hide Inv, RemovesIdle, Deposit, Withdraw, AddShares, Bind, Unbind, RegProxy, UnregProxy, CreateValidator,
      DestroyValidator;
    var r := Handle(st, ctx, m).value;
    match m {
      case MsgDeposit(del, amount) => DepositKeeps(st, ctx, del, amount);
      case MsgWithdraw(del, amount) => WithdrawIdle(st, ctx, del, amount);
      case MsgAddShares(del, targets) => AddSharesIdle(st, ctx, del, targets);
      case MsgBindProxy(del, proxy) => BindKeeps(st, ctx, del, proxy);
      case MsgUnbindProxy(del) => UnbindKeeps(st, ctx, del);
      case MsgRegProxy(del, reg) => if reg { RegProxyKeeps(st, ctx, del); } else { UnregProxyKeeps(st, ctx, del); }
      case MsgCreateValidator(del, msd) => CreateKeeps(st, ctx, del, msd); GrownIdle(st, r);
      case MsgDestroyValidator(del) => DestroyIdle(st, ctx, del);
      case Jailing(del) => OperatorOf(st, ctx, del);
      case Unjailing(del) => OperatorOf(st, ctx, del);
    }
    if r.validators.Keys == st.validators.Keys {
      KeysKeptIdle(st, r);
    }
  }

  lemma GrownIdle(st: Store, r: Store)
    requires st.validators.Keys <= r.validators.Keys
    ensures RemovesIdle(st, r)
  {
  }

  // ---------- Messages keep lists alive ----------

  /** The list of a delegator after a message that succeeds, as ListAfter says; a delegator that
      leaves has none. */
  lemma ListIs(st: Store, ctx: Context, m: Message, a: Address)
    requires ctx.Valid() && Inv(st, ctx) && Handle(st, ctx, m).Some?
    ensures
      var r := Handle(st, ctx, m).value;
      && (a in r.delegators ==> r.delegators[a].validators == ListAfter(st, m, a))
      && (a in Weighings(st, m) && ListAfter(st, m, a) != [] ==> a in r.delegators)
  {
    hide Inv, Handle, DelegatorsOk, Backing, UndelegationOf, SelfOf, BalanceOf, BoundTokens, ProxyTotalOk;
    var r := Handle(st, ctx, m).value;
    MessageMeans(st, ctx, m, a);
    BooksOf(st, ctx);
    DelegatorOfBooks(st, m.del);
    SenderKnown(st, ctx, m);
    BooksAfter(st, ctx, m);
    Shows(r, a);
    Shows(st, a);
  }

  lemma BooksAfter(st: Store, ctx: Context, m: Message)
    requires ctx.Valid() && Inv(st, ctx) && Handle(st, ctx, m).Some?
    ensures DelegatorsOk(Handle(st, ctx, m).value)
  {
    hide Inv, DelegatorsOk, Deposit, Withdraw, AddShares, Bind, Unbind, RegProxy, UnregProxy, DestroyValidator, Jail, Unclaimed;
    MessageKeeps(st, ctx, m);
    var r := Handle(st, ctx, m).value;
    BooksOf(st, ctx);
    if Inv(r, ctx) {
      BooksOf(r, ctx);
    } else {
      hide Power;
      UnbondBooks(st, r);
    }
  }

  /** Whatever is listed after the message existed before it. */
  lemma ListedBefore(st: Store, ctx: Context, m: Message, a: Address)
    requires ctx.Valid() && Inv(st, ctx) && Live(st) && Handle(st, ctx, m).Some?
    ensures forall v :: v in ListAfter(st, m, a) ==> v in st.validators
  {
    hide Inv, AddShares, Deposit, Withdraw, Bind, Unbind, RegProxy, UnregProxy, CreateValidator, DestroyValidator, Jail, Unjail,
      Refreshes;
    if m.MsgAddShares? && a == m.del {
      AddSharesFails(st, ctx, m.del, m.targets);
    } else if a in st.delegators {
      assert LiveAt(st, st.delegators[a]);
    }
  }

  /** A weighed delegator with a list has the weight of what was weighed. */
  lemma WeighedShares(st: Store, ctx: Context, m: Message, a: Address)
    requires ctx.Valid() && Inv(st, ctx) && Live(st) && Handle(st, ctx, m).Some?
    requires a in Weighings(st, m) && ListAfter(st, m, a) != []
    ensures
      var r := Handle(st, ctx, m).value;
      a in r.delegators && r.delegators[a].shares == Weigh(ctx, Weighings(st, m)[a])
  {
    hide Inv, Handle, Weighings, ListAfter, Live, Weigh, Rounds, Unclaimed;
    var r := Handle(st, ctx, m).value;
    ListIs(st, ctx, m, a);
    ListedBefore(st, ctx, m, a);
    WeighingKeys(st, m);
    MessageKeeps(st, ctx, m);
    MessageRefreshes(st, ctx, m);
    WeighedIsBacking(st, ctx, m, a);
    var v := ListAfter(st, m, a)[0];
    assert v in r.delegators[a].validators && v in st.validators;
    WeighRounds(ctx, Weighings(st, m)[a]);
    RoundsUnique(r.delegators[a].shares, Weigh(ctx, Weighings(st, m)[a]), Weighings(st, m)[a] * ctx.rate);
  }

  lemma WeightyLiveAt(st: Store, ctx: Context, m: Message, a: Address)
    requires ctx.Valid() && Inv(st, ctx) && Live(st) && Handle(st, ctx, m).Some? && Weighty(st, ctx, m)
    requires a in Handle(st, ctx, m).value.delegators
    ensures LiveAt(Handle(st, ctx, m).value, Handle(st, ctx, m).value.delegators[a])
  {
    hide Inv, Handle, Weighings, Weigh;
    var r := Handle(st, ctx, m).value;
    var d := r.delegators[a];
    ListIs(st, ctx, m, a);
    ListedBefore(st, ctx, m, a);
    MessageIdle(st, ctx, m);
    if d.validators != [] {
      if a in Weighings(st, m) {
        WeighedShares(st, ctx, m, a);
      } else {
        MessageRefreshes(st, ctx, m);
        WeighingKeys(st, m);
        assert a in st.delegators && LiveAt(st, st.delegators[a]);
      }
    }
  }

  lemma LiveWeighty(st: Store, ctx: Context, m: Message)
    requires ctx.Valid() && Inv(st, ctx) && Live(st) && Handle(st, ctx, m).Some? && Live(Handle(st, ctx, m).value)
    ensures Weighty(st, ctx, m)
  {
    hide Inv, Handle, Weighings, Weigh;
    var r := Handle(st, ctx, m).value;
    forall a | a in Weighings(st, m) && ListAfter(st, m, a) != []
      ensures Weigh(ctx, Weighings(st, m)[a]) > 0
    {
      ListIs(st, ctx, m, a);
      WeighedShares(st, ctx, m, a);
      assert LiveAt(r, r.delegators[a]);
    }
  }

  /** After a message that succeeds the lists are alive if and only if its weighings give shares. */
  lemma MessageLive(st: Store, ctx: Context, m: Message)
    requires ctx.Valid() && Inv(st, ctx) && Live(st) && Handle(st, ctx, m).Some?
    ensures Live(Handle(st, ctx, m).value) <==> Weighty(st, ctx, m)
  {
    hide Inv, Handle, Weighings, Weighty, ListAfter, Live, LiveAt, Refreshes, RemovesIdle;
    var r := Handle(st, ctx, m).value;
    if Weighty(st, ctx, m) {
      forall a | a in r.delegators
        ensures LiveAt(r, r.delegators[a])
      {
        WeightyLiveAt(st, ctx, m, a);
      }
      AllLive(r);
    } else if Live(r) {
      LiveWeighty(st, ctx, m);
      assert false;
    }
  }

  lemma AllLive(st: Store)
    requires forall a :: a in st.delegators ==> LiveAt(st, st.delegators[a])
    ensures Live(st)
  {
  }

  // ---------- End-blocks and runs ----------

  /** An end-block changes no delegator and removes only validators nobody has shares on. */
  lemma EndBlockLive(st: Store, ctx: Context, endOfEpoch: bool)
    requires ctx.Valid() && Inv(st, ctx) && Live(st)
    ensures EndBlock(st, ctx, endOfEpoch).Ok? && Live(EndBlock(st, ctx, endOfEpoch).value.0)
  {
    hide Inv, EndOfSet, UnbondAllMature, CompleteLoop, MatureKeys, SharesOk, Live;
    EndOfSetKeeps(st, ctx, endOfEpoch);
    var s := EndOfSet(st, ctx, endOfEpoch).value.0;
    UnbondAllMatureKeeps(s, ctx);
    var m := UnbondAllMature(s, ctx).value;
    CompleteLoopPays(m, ctx, MatureKeys(m, ctx));
    SharesOf(s, ctx);
    LiveFrame(st, s);
    MatureLive(s, m, Mature(s, ctx));
    LiveFrame(m, CompleteLoop(m, MatureKeys(m, ctx)));
  }

  lemma LiveFrame(st: Store, r: Store)
    requires Live(st) && r.delegators == st.delegators && r.validators.Keys == st.validators.Keys
    ensures Live(r)
  {
    forall a | a in r.delegators
      ensures LiveAt(r, r.delegators[a])
    {
      assert LiveAt(st, st.delegators[a]);
    }
  }

  lemma MatureLive(st: Store, r: Store, done: set<Address>)
    requires SharesOk(st) && Live(st) && Matures(st, r, done)
    ensures Live(r)
  {
    hide SharesOk, ShareSum;
    forall a | a in r.delegators
      ensures LiveAt(r, r.delegators[a])
    {
      assert LiveAt(st, st.delegators[a]);
      forall v | v in r.delegators[a].validators
        ensures v in r.validators
      {
        TotalOf(st, v);
        if ShareSum(st.shares, v) == 0 {
          ShareslessIdle(st, v, a);
          assert false;
        }
      }
    }
  }

  /** What is asked of a step to keep lists alive: positive weighings, instead of any condition on
      where validators are created. */
  ghost predicate AllowedLive(st: Store, step: Step, reduction: nat) {
    && step.ctx.Valid() && step.ctx.powerReduction == reduction
    && (step.Deliver? ==>
          && Weighty(st, step.ctx, step.message)
          && (step.message.Unjailing? && step.message.del in st.validators ==> st.validators[step.message.del].minSelfDelegation != 0))
  }

  ghost predicate AllowedLiveRun(st: Store, steps: seq<Step>, reduction: nat)
    decreases |steps|
  {
    steps == [] ||
    (AllowedLive(st, steps[0], reduction) &&
     (Do(st, steps[0]).Ok? ==> AllowedLiveRun(Do(st, steps[0]).value, steps[1..], reduction)))
  }

  /** With live lists every creation is sound. */
  lemma LiveSound(st: Store, step: Step, reduction: nat)
    requires Live(st) && AllowedLive(st, step, reduction)
    ensures Allowed(st, step, reduction)
  {
    if step.Deliver? && step.message.MsgCreateValidator? && step.message.del !in st.validators {
      forall d | d in st.delegators
        ensures step.message.del !in st.delegators[d].validators
      {
        assert LiveAt(st, st.delegators[d]);
      }
    }
  }

  lemma StepLive(st: Store, step: Step)
    requires step.ctx.Valid() && Inv(st, step.ctx) && Live(st) && AllowedLive(st, step, step.ctx.powerReduction)
    ensures Do(st, step).Ok? && Live(Do(st, step).value)
  {
    hide Inv, Handle, EndBlock, Live, Weighty;
    match step
    case Deliver(ctx, m) =>
      if Handle(st, ctx, m).Some? {
        MessageLive(st, ctx, m);
      }
    case EndOfBlock(ctx, endOfEpoch) => EndBlockLive(st, ctx, endOfEpoch);
  }

  /** Over every run whose weighings are positive the invariant holds, no end-block panics, and
      every listed validator exists and carries its delegator's shares. */
  lemma {:induction false} LiveRun(st: Store, steps: seq<Step>, ctx: Context)
    requires ctx.Valid() && Inv(st, ctx) && Live(st) && AllowedLiveRun(st, steps, ctx.powerReduction)
    requires forall i :: 0 <= i < |steps| ==> steps[i].ctx.Valid()
    ensures Run(st, steps).Ok? && Inv(Run(st, steps).value, ctx) && Live(Run(st, steps).value)
    decreases |steps|
  {
    hide Inv, Do, Live, AllowedLive;
    if steps != [] {
      AllowedLiveIs(st, steps[0], ctx.powerReduction);
      InvContext(st, ctx, steps[0].ctx);
      LiveSound(st, steps[0], ctx.powerReduction);
      StepKeeps(st, steps[0]);
      StepLive(st, steps[0]);
      InvContext(Do(st, steps[0]).value, steps[0].ctx, ctx);
      LiveRun(Do(st, steps[0]).value, steps[1..], ctx);
    }
  }

  lemma AllowedLiveIs(st: Store, step: Step, reduction: nat)
    requires AllowedLive(st, step, reduction)
    ensures step.ctx.Valid() && step.ctx.powerReduction == reduction
  {
  }

  lemma GenesisLive(balances: map<Address, int>)
    ensures Live(Genesis(balances))
  {
  }

  /** From week 27 on, when the weight is above one half, every weighing is positive. */
  lemma HeavyWeeks(st: Store, ctx: Context, m: Message)
    requires ctx.Valid() && Inv(st, ctx) && Live(st) && ctx.Weighs() && Handle(st, ctx, m).Some?
    ensures Weighty(st, ctx, m)
  {
    hide Inv, Handle, Weighings, ListAfter, Weigh, Live, Unclaimed;
    WeightPositive(ctx);
    MessageKeeps(st, ctx, m);
    WeighingKeys(st, m);
    var r := Handle(st, ctx, m).value;
    forall a | a in Weighings(st, m) && ListAfter(st, m, a) != []
      ensures Weigh(ctx, Weighings(st, m)[a]) > 0
    {
      ListIs(st, ctx, m, a);
      WeighedIsBacking(st, ctx, m, a);
      BooksAfter(st, ctx, m);
      TotalNonNegative(r, a);
    }
  }
}
