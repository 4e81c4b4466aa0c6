/** What every message means for each account, independently of how it is carried out, and the
    conservation of coins over whole runs. */
module StakingMeanings {
  import opened EvmTypes
  import opened Coins
  import opened Sums
  import opened StakingStore
  import opened StakingInvariants
  import opened ShareUpdates
  import opened ShareMoves
  import opened Proxies
  import opened StakingMessages
  import opened ProxyMessages
  import opened DelegatorMessages
  import opened ValidatorMessages
  import opened ValidatorSet
  import opened EndBlocks
  import opened StakingRuns

  // ---------- The face of an account ----------

  /** What the record of a delegator promises; an absent one counts as empty. */
  datatype Stake = Stake(tokens: int, validators: seq<Address>, isProxy: bool, proxy: Option<Address>)

  /** An account as its owner sees it. */
  datatype Face = Face(stake: Stake, selfDelegation: nat, undelegation: Option<Undelegation>, balance: int)

  function StakeOf(ds: map<Address, Delegator>, a: Address): Stake {
    if a in ds then Stake(ds[a].tokens, ds[a].validators, ds[a].isProxy, ds[a].proxy) else Stake(0, [], false, None)
  }

  function SelfOf(vs: map<Address, Validator>, a: Address): nat {
    if a in vs then vs[a].minSelfDelegation else 0
  }

  function UndelegationOf(us: map<Address, Undelegation>, a: Address): Option<Undelegation> {
    if a in us then Some(us[a]) else None
  }

  function FaceOf(st: Store, a: Address): Face {
    Face(StakeOf(st.delegators, a), SelfOf(st.validators, a), UndelegationOf(st.undelegations, a), BalanceOf(st, a))
  }

  /** The undelegation grows and its time starts again. */
  function Undelegated(f: Face, quantity: int, completion: Time): Face {
    f.(undelegation := Some(Undelegation((if f.undelegation.Some? then f.undelegation.value.quantity else 0) + quantity, completion)))
  }

  /** The face of account a after a message that succeeds. */
  function FaceAfter(m: Message, ctx: Context, a: Address, f: Face): Face {
    match m
    case MsgDeposit(del, amount) =>
      if a == del then f.(stake := f.stake.(tokens := f.stake.tokens + amount), balance := f.balance - amount) else f
    case MsgWithdraw(del, amount) =>
      if a != del then f
      else if f.stake.tokens == amount then Undelegated(f.(stake := Stake(0, [], false, None)), amount, ctx.completion)
      else Undelegated(f.(stake := f.stake.(tokens := f.stake.tokens - amount)), amount, ctx.completion)
    case MsgAddShares(del, targets) =>
      if a == del then f.(stake := f.stake.(validators := targets)) else f
    case MsgBindProxy(del, proxy) =>
      if a == del then f.(stake := f.stake.(proxy := Some(proxy))) else f
    case MsgUnbindProxy(del) =>
      if a == del then f.(stake := f.stake.(proxy := None)) else f
    case MsgRegProxy(del, reg) =>
      if a == del then f.(stake := f.stake.(isProxy := reg))
      else if !reg && f.stake.proxy == Some(del) then f.(stake := f.stake.(proxy := None))
      else f
    case MsgCreateValidator(del, msd) =>
      if a == del then f.(selfDelegation := msd, balance := f.balance - msd) else f
    case MsgDestroyValidator(del) =>
      if a == del then Undelegated(f.(selfDelegation := 0), f.selfDelegation, ctx.completion) else f
    case Jailing(_) => f
    case Unjailing(_) => f
  }

  // ---------- Share operations show on no face ----------

  ghost predicate SameStakeOf(ds: map<Address, Delegator>, ds': map<Address, Delegator>) {
    forall a :: StakeOf(ds', a) == StakeOf(ds, a)
  }

  ghost predicate SameFaces(st: Store, r: Store) {
    forall a :: FaceOf(r, a) == FaceOf(st, a)
  }

  lemma ResharesFaces(st: Store, r: Store)
    requires Reshares(st, r) && SameStakeOf(st.delegators, r.delegators)
    ensures SameFaces(st, r)
  {
    forall a
      ensures FaceOf(r, a) == FaceOf(st, a)
    {
      assert StakeOf(r.delegators, a) == StakeOf(st.delegators, a);
      assert SelfOf(r.validators, a) == SelfOf(st.validators, a);
    }
  }

  lemma ReweighsStakes(ds: map<Address, Delegator>, ds': map<Address, Delegator>, del: Address)
    requires Reweighs(ds, ds', del)
    ensures SameStakeOf(ds, ds')
  {
    forall a
      ensures StakeOf(ds', a) == StakeOf(ds, a)
    {
    }
  }

  lemma RetotalledStakes(ds: map<Address, Delegator>, p: Address, delta: int)
    requires p in ds
    ensures SameStakeOf(ds, Retotalled(ds, p, delta))
  {
    forall a
      ensures StakeOf(Retotalled(ds, p, delta), a) == StakeOf(ds, a)
    {
    }
  }

  lemma UpdateSharesFaces(st: Store, ctx: Context, del: Address, tokens: int)
    requires ctx.Valid() && Steady(st, ctx) && SharesOk(st) && tokens > 0
    requires UpdateShares(st, ctx, del, tokens).Some?
    ensures SameFaces(st, UpdateShares(st, ctx, del, tokens).value)
  {
    hide Steady, SharesOk, UpdateShares, Weigh, Reshares, Reweighs, SameFaces, SameStakeOf;
    UpdateSharesKeeps(st, ctx, del, tokens);
    ReweighsStakes(st.delegators, UpdateShares(st, ctx, del, tokens).value.delegators, del);
    ResharesFaces(st, UpdateShares(st, ctx, del, tokens).value);
  }

  lemma InvUpdateFaces(st: Store, ctx: Context, del: Address, tokens: int)
    requires ctx.Valid() && Inv(st, ctx) && tokens > 0
    requires UpdateShares(st, ctx, del, tokens).Some?
    ensures SameFaces(st, UpdateShares(st, ctx, del, tokens).value)
  {
    hide Inv, Steady, SharesOk, UpdateShares, SameFaces, ValidatorsOk;
    ValidatorsOf(st, ctx);
    SharesOf(st, ctx);
    InvSteady(st, ctx);
    UpdateSharesFaces(st, ctx, del, tokens);
  }

  // ---------- Deposits ----------

  lemma DepositMeans(st: Store, ctx: Context, del: Address, amount: int, a: Address)
    requires ctx.Valid() && Inv(st, ctx) && Deposit(st, ctx, del, amount).Some?
    ensures FaceOf(Deposit(st, ctx, del, amount).value, a) == FaceAfter(MsgDeposit(del, amount), ctx, a, FaceOf(st, a))
  {
    hide Inv, UpdateShares, DelegatorsOk, SharesOk;
    BooksOf(st, ctx);
    DelegatorOfBooks(st, del);
    DepositedKeeps(st, ctx, del, amount);
    var s := Deposited(st, del, amount);
    BooksOf(s, ctx);
    TotalNonNegative(s, del);
    DepositedFace(st, del, amount, a);
    if s.delegators[del].proxy.Some? {
      var p := s.delegators[del].proxy.value;
      TotalNonNegative(s, p);
      InvUpdateFaces(s, ctx, p, s.delegators[p].totalDelegated + s.delegators[p].tokens);
    } else {
      InvUpdateFaces(s, ctx, del, Weighed(s.delegators[del]));
    }
  }

  lemma DepositedFace(st: Store, del: Address, amount: int, a: Address)
    ensures
      var f := FaceOf(st, a);
      FaceOf(Deposited(st, del, amount), a) ==
      if a == del then f.(stake := f.stake.(tokens := f.stake.tokens + amount), balance := f.balance - amount) else f
  {
  }

  // ---------- Withdrawals ----------

  lemma UnbondFace(st: Store, ctx: Context, del: Address, quantity: int, a: Address)
    requires Unbond(st, ctx, del, quantity).Some?
    ensures
      FaceOf(Unbond(st, ctx, del, quantity).value, a) ==
      if a == del then Undelegated(FaceOf(st, a), quantity, ctx.completion) else FaceOf(st, a)
  {
  }

  lemma ToldFaces(st: Store, s: Store, ctx: Context, del: Address, quantity: int)
    requires ctx.Valid() && del in st.delegators && ProxyTold(st, s, ctx, del, quantity)
    ensures SameFaces(st, s)
  {
    hide Steady, SharesOk, Reshares, Reweighs, Retotalled;
    var d := st.delegators[del];
    if d.proxy.Some? {
      RetotalledStakes(st.delegators, d.proxy.value, -quantity);
      ReweighsStakes(Retotalled(st.delegators, d.proxy.value, -quantity), s.delegators, d.proxy.value);
      ResharesFaces(st, s);
    }
  }

  lemma LeaveFace(st: Store, s: Store, ctx: Context, del: Address, a: Address)
    requires ctx.Valid() && del in st.delegators && ProxyTold(st, s, ctx, del, st.delegators[del].tokens)
    ensures
      var f := FaceOf(st, a);
      FaceOf(Leave(s, ctx, del, st.delegators[del]), a) == if a == del then f.(stake := Stake(0, [], false, None)) else f
  {
    hide Steady, SharesOk, Reshares, WithdrawLoop, SameFaces, OthersOk;
    var d := st.delegators[del];
    ToldRecord(st, s, ctx, del, d.tokens);
    ToldFaces(st, s, ctx, del, d.tokens);
    WithdrawSharesKeeps(s, ctx, del);
    var w := WithdrawLoop(s, ctx, del, Existing(s, d.validators), d.shares);
    ResharesFaces(s, w);
    FacesAt(st, s, a);
    FacesAt(s, w, a);
  }

  lemma FacesAt(st: Store, r: Store, a: Address)
    requires SameFaces(st, r)
    ensures FaceOf(r, a) == FaceOf(st, a)
  {
  }

  lemma StayFace(st: Store, s: Store, ctx: Context, del: Address, quantity: int, a: Address)
    requires ctx.Valid() && Inv(st, ctx) && del in st.delegators && 0 < quantity < st.delegators[del].tokens
    requires ProxyTold(st, s, ctx, del, quantity)
    requires Stay(s, ctx, del, st.delegators[del].(tokens := st.delegators[del].tokens - quantity)).Some?
    ensures
      var f := FaceOf(st, a);
      FaceOf(Stay(s, ctx, del, st.delegators[del].(tokens := st.delegators[del].tokens - quantity)).value, a) ==
      if a == del then f.(stake := f.stake.(tokens := f.stake.tokens - quantity)) else f
  {
    hide Inv, Steady, SharesOk, Reshares, UpdateShares, SameFaces, SetDelegator, UndelegationOf, SelfOf, BalanceOf;
    var d := st.delegators[del];
    var d' := d.(tokens := d.tokens - quantity);
    ToldFaces(st, s, ctx, del, quantity);
    FacesAt(st, s, a);
    ReplacedFace(s, del, d', a);
    if d.proxy.None? {
      ReducedFaces(st, ctx, del, quantity, a);
    }
  }

  lemma ReplacedFace(st: Store, del: Address, d: Delegator, a: Address)
    ensures FaceOf(SetDelegator(st, del, d), a) ==
            if a == del then FaceOf(st, a).(stake := Stake(d.tokens, d.validators, d.isProxy, d.proxy)) else FaceOf(st, a)
  {
  }

  lemma ReducedFaces(st: Store, ctx: Context, del: Address, quantity: int, a: Address)
    requires ctx.Valid() && Inv(st, ctx) && del in st.delegators && 0 < quantity < st.delegators[del].tokens
    requires st.delegators[del].proxy.None?
    requires
      var d := st.delegators[del].(tokens := st.delegators[del].tokens - quantity);
      UpdateShares(SetDelegator(st, del, d), ctx, del, Weighed(d)).Some?
    ensures
      var d := st.delegators[del].(tokens := st.delegators[del].tokens - quantity);
      var x := SetDelegator(st, del, d);
      FaceOf(UpdateShares(x, ctx, del, Weighed(d)).value, a) == FaceOf(x, a)
  {
    hide Inv, Steady, SharesOk, UpdateShares, SameFaces, DelegatorsOk, ValidatorsOk, Releasing, FaceOf;
    var d := st.delegators[del].(tokens := st.delegators[del].tokens - quantity);
    ReducedKeeps(st, ctx, del, quantity);
    var x := SetDelegator(st, del, d);
    ReleasingParts(x, ctx, quantity);
    InvSteady(x, ctx);
    TotalNonNegative(x, del);
    UpdateSharesFaces(x, ctx, del, Weighed(d));
    FacesAt(x, UpdateShares(x, ctx, del, Weighed(d)).value, a);
  }

  lemma ReleasingParts(st: Store, ctx: Context, quantity: int)
    requires ctx.Valid() && Releasing(st, ctx, quantity)
    ensures ValidatorsOk(st, ctx) && SharesOk(st) && DelegatorsOk(st)
  {
    hide ValidatorsOk, SharesOk, DelegatorsOk, UndelegationsOk;
  }

  lemma WithdrawMeans(st: Store, ctx: Context, del: Address, quantity: int, a: Address)
    requires ctx.Valid() && Inv(st, ctx) && Withdraw(st, ctx, del, quantity).Some?
    ensures FaceOf(Withdraw(st, ctx, del, quantity).value, a) == FaceAfter(MsgWithdraw(del, quantity), ctx, a, FaceOf(st, a))
  {
    hide Inv, UpdateProxy, Leave, Stay, Unbond, ProxyTold, UndelegationOf, SelfOf, BalanceOf;
    var d := st.delegators[del];
    ProxyToldAfter(st, ctx, del, quantity);
    var s := UpdateProxy(st, ctx, d, -quantity).value;
    if d.tokens == quantity {
      LeaveFace(st, s, ctx, del, a);
      UnbondFace(Leave(s, ctx, del, d), ctx, del, quantity, a);
    } else {
      StayFace(st, s, ctx, del, quantity, a);
      UnbondFace(Stay(s, ctx, del, d.(tokens := d.tokens - quantity)).value, ctx, del, quantity, a);
    }
  }

  // ---------- Shares and proxies ----------

  lemma AddSharesMeans(st: Store, ctx: Context, del: Address, targets: seq<Address>, a: Address)
    requires ctx.Valid() && Inv(st, ctx) && AddShares(st, ctx, del, targets).Some?
    ensures FaceOf(AddShares(st, ctx, del, targets).value, a) == FaceAfter(MsgAddShares(del, targets), ctx, a, FaceOf(st, a))
  {
    hide Inv, Steady, SharesOk, DelegatorsOk, ValidatorsOk, AddShares, Weigh;
    var r := AddShares(st, ctx, del, targets).value;
    ValidatorsOf(st, ctx);
    BooksOf(st, ctx);
    InvSteady(st, ctx);
    if del in st.delegators {
      TotalNonNegative(st, del);
    }
    AddSharesKeeps(st, ctx, del, targets);
    assert SelfOf(r.validators, a) == SelfOf(st.validators, a);
  }

  lemma UnbindMeans(st: Store, ctx: Context, del: Address, a: Address)
    requires ctx.Valid() && Inv(st, ctx) && Unbind(st, ctx, del).Some?
    ensures FaceOf(Unbind(st, ctx, del).value, a) == FaceAfter(MsgUnbindProxy(del), ctx, a, FaceOf(st, a))
  {
    hide Inv, UpdateProxy, ProxyTold, SameFaces;
    var d := st.delegators[del];
    ProxyToldAfter(st, ctx, del, d.tokens);
    var s := UpdateProxy(st, ctx, d, -d.tokens).value;
    ToldFaces(st, s, ctx, del, d.tokens);
    FacesAt(st, s, a);
  }

  lemma AttachMeans(st: Store, ctx: Context, del: Address, d: Delegator, proxy: Address, a: Address)
    requires ctx.Valid() && Inv(st, ctx) && CanBind(st, del, proxy)
    requires st.delegators[del] == d.(proxy := None)
    requires Attach(st, ctx, del, d, proxy, st.delegators[proxy]).Some?
    ensures
      var f := FaceOf(st, a);
      FaceOf(Attach(st, ctx, del, d, proxy, st.delegators[proxy]).value, a) ==
      if a == del then f.(stake := f.stake.(proxy := Some(proxy))) else f
  {
    hide Inv, UpdateShares, DelegatorsOk, SharesOk, SameFaces;
    BoundBookKeeps(st, ctx, del, proxy);
    var s := BoundBook(st, del, proxy);
    BooksOf(s, ctx);
    TotalNonNegative(s, proxy);
    var p := s.delegators[proxy];
    assert s.delegators == st.delegators[del := d.(proxy := Some(proxy), isProxy := false)][proxy := p];
    InvUpdateFaces(s, ctx, proxy, p.totalDelegated + p.tokens);
    FacesAt(s, UpdateShares(s, ctx, proxy, p.totalDelegated + p.tokens).value, a);
  }

  lemma BindMeans(st: Store, ctx: Context, del: Address, proxy: Address, a: Address)
    requires ctx.Valid() && Inv(st, ctx) && Bind(st, ctx, del, proxy).Some?
    ensures FaceOf(Bind(st, ctx, del, proxy).value, a) == FaceAfter(MsgBindProxy(del, proxy), ctx, a, FaceOf(st, a))
  {
    hide Inv, UpdateShares, Unbind, Attach, DelegatorsOk, SharesOk, SameFaces;
    var d, p := st.delegators[del], st.delegators[proxy];
    BooksOf(st, ctx);
    if d.proxy == Some(proxy) {
      TotalNonNegative(st, proxy);
      InvUpdateFaces(st, ctx, proxy, p.totalDelegated + p.tokens);
      FacesAt(st, UpdateShares(st, ctx, proxy, p.totalDelegated + p.tokens).value, a);
    } else if d.proxy.Some? {
      UnbindKeeps(st, ctx, del);
      UnbindRecords(st, ctx, del, proxy);
      UnbindMeans(st, ctx, del, a);
      AttachMeans(Unbind(st, ctx, del).value, ctx, del, d, proxy, a);
    } else {
      AttachMeans(st, ctx, del, d, proxy, a);
    }
  }

  lemma RegProxyMeans(st: Store, ctx: Context, del: Address, a: Address)
    requires ctx.Valid() && Inv(st, ctx) && RegProxy(st, ctx, del).Some?
    ensures FaceOf(RegProxy(st, ctx, del).value, a) == FaceAfter(MsgRegProxy(del, true), ctx, a, FaceOf(st, a))
  {
    hide Inv, UpdateShares, DelegatorsOk, SharesOk, SameFaces, Steady, ValidatorsOk, ShareTotalsOk;
    var d := st.delegators[del];
    var s := SetDelegator(st, del, d.(isProxy := true, proxy := None));
    ValidatorsOf(st, ctx);
    BooksOf(st, ctx);
    InvTotals(st, ctx);
    SameSetKeeps(st, s, ctx);
    SharesFrame(st, s);
    TotalNonNegative(st, del);
    UpdateSharesFaces(s, ctx, del, d.tokens);
    FacesAt(s, UpdateShares(s, ctx, del, d.tokens).value, a);
  }

  lemma UnregProxyMeans(st: Store, ctx: Context, del: Address, a: Address)
    requires ctx.Valid() && Inv(st, ctx) && UnregProxy(st, ctx, del).Some?
    ensures FaceOf(UnregProxy(st, ctx, del).value, a) == FaceAfter(MsgRegProxy(del, false), ctx, a, FaceOf(st, a))
  {
    hide Inv, UpdateShares, DelegatorsOk, SharesOk, SameFaces, Steady, ValidatorsOk, ShareTotalsOk, SameLists;
    var d := st.delegators[del].(isProxy := false, totalDelegated := 0);
    var s := SetDelegator(ClearProxy(st, del), del, d);
    ValidatorsOf(st, ctx);
    BooksOf(st, ctx);
    InvTotals(st, ctx);
    SameSetKeeps(st, s, ctx);
    UnregisteredLists(st, del, d);
    SharesFrame(st, s);
    TotalNonNegative(st, del);
    UpdateSharesFaces(s, ctx, del, d.tokens);
    FacesAt(s, UpdateShares(s, ctx, del, d.tokens).value, a);
    UnregisteredFace(st, del, d, a);
  }

  lemma UnregisteredFace(st: Store, del: Address, d: Delegator, a: Address)
    requires DelegatorsOk(st) && del in st.delegators && st.delegators[del].isProxy
    requires d == st.delegators[del].(isProxy := false, totalDelegated := 0)
    ensures
      var f := FaceOf(st, a);
      FaceOf(SetDelegator(ClearProxy(st, del), del, d), a) ==
      if a == del then f.(stake := f.stake.(isProxy := false))
      else if f.stake.proxy == Some(del) then f.(stake := f.stake.(proxy := None))
      else f
  {
    hide BoundTokens;
    DelegatorOfBooks(st, a);
    ClearedProxies(st, del);
  }

  // ---------- Validators ----------

  lemma CreateMeans(st: Store, ctx: Context, del: Address, msd: nat, a: Address)
    requires ctx.Valid() && CreateValidator(st, ctx, del, msd).Some?
    ensures FaceOf(CreateValidator(st, ctx, del, msd).value, a) == FaceAfter(MsgCreateValidator(del, msd), ctx, a, FaceOf(st, a))
  {
    hide Power;
  }

  lemma DestroyMeans(st: Store, ctx: Context, del: Address, a: Address)
    requires ctx.Valid() && Inv(st, ctx) && DestroyValidator(st, ctx, del).Some?
    ensures FaceOf(DestroyValidator(st, ctx, del).value, a) == FaceAfter(MsgDestroyValidator(del), ctx, a, FaceOf(st, a))
  {
    hide Inv, Unbond, Dismiss, UndelegationOf, BalanceOf, StakeOf;
    OperatorOf(st, ctx, del);
    var v := st.validators[del];
    UnbondFace(st, ctx, del, v.minSelfDelegation, a);
    UnbondSets(st, ctx, del, v.minSelfDelegation);
    DismissFace(Unbond(st, ctx, del, v.minSelfDelegation).value, ctx, v, v.shares - ONE, a);
  }

  lemma UnbondSets(st: Store, ctx: Context, del: Address, quantity: int)
    requires Unbond(st, ctx, del, quantity).Some?
    ensures Unbond(st, ctx, del, quantity).value.validators == st.validators
  {
  }

  lemma DismissFace(st: Store, ctx: Context, v: Validator, remain: int, a: Address)
    requires ctx.Valid() && v.operator in st.validators && st.validators[v.operator] == v
    ensures FaceOf(Dismiss(st, ctx, v, remain), a) ==
            if a == v.operator then FaceOf(st, a).(selfDelegation := 0) else FaceOf(st, a)
  {
    hide Power;
  }

  lemma JailMeans(st: Store, ctx: Context, del: Address, a: Address)
    requires ctx.Valid() && Inv(st, ctx)
    ensures Jail(st, ctx, del).Some? ==> FaceOf(Jail(st, ctx, del).value, a) == FaceOf(st, a)
    ensures Unjail(st, ctx, del).Some? ==> FaceOf(Unjail(st, ctx, del).value, a) == FaceOf(st, a)
  {
    hide Inv, Power, UndelegationOf, StakeOf;
    if del in st.validators {
      OperatorOf(st, ctx, del);
      SelfSame(st.validators, st.validators[del].(jailed := true), a);
      SelfSame(st.validators, st.validators[del].(jailed := false), a);
    }
  }

  lemma SelfSame(vs: map<Address, Validator>, v: Validator, a: Address)
    requires v.operator in vs && vs[v.operator].minSelfDelegation == v.minSelfDelegation
    ensures SelfOf(vs[v.operator := v], a) == SelfOf(vs, a)
  {
  }

  /** A message that succeeds changes the face of every account as its meaning says. */
  lemma MessageMeans(st: Store, ctx: Context, m: Message, a: Address)
    requires ctx.Valid() && Inv(st, ctx) && Handle(st, ctx, m).Some?
    ensures FaceOf(Handle(st, ctx, m).value, a) == FaceAfter(m, ctx, a, FaceOf(st, a))
  {
    hide Inv, FaceOf, FaceAfter, Deposit, Withdraw, AddShares, Bind, Unbind, RegProxy, UnregProxy, CreateValidator,
      DestroyValidator, Jail, Unjail;
    match m
    case MsgDeposit(del, amount) => DepositMeans(st, ctx, del, amount, a);
    case MsgWithdraw(del, amount) => WithdrawMeans(st, ctx, del, amount, a);
    case MsgAddShares(del, targets) => AddSharesMeans(st, ctx, del, targets, a);
    case MsgBindProxy(del, proxy) => BindMeans(st, ctx, del, proxy, a);
    case MsgUnbindProxy(del) => UnbindMeans(st, ctx, del, a);
    case MsgRegProxy(del, reg) => if reg { RegProxyMeans(st, ctx, del, a); } else { UnregProxyMeans(st, ctx, del, a); }
    case MsgCreateValidator(del, msd) => CreateMeans(st, ctx, del, msd, a);
    case MsgDestroyValidator(del) => DestroyMeans(st, ctx, del, a);
    case Jailing(del) => JailMeans(st, ctx, del, a); JailingFace(ctx, del, a, FaceOf(st, a));
    case Unjailing(del) => JailMeans(st, ctx, del, a); JailingFace(ctx, del, a, FaceOf(st, a));
  }

  lemma JailingFace(ctx: Context, del: Address, a: Address, f: Face)
    ensures FaceAfter(Jailing(del), ctx, a, f) == f && FaceAfter(Unjailing(del), ctx, a, f) == f
  {
  }

  // ---------- Coins are conserved ----------

  /** All coins the staking module can reach: in accounts and in its two pools. */
  ghost function Supply(st: Store): int {
    Sum(st.balances) + st.bonded + st.notBonded
  }

  function Get(m: map<Address, int>, a: Address): int {
    if a in m then m[a] else 0
  }

  /** A sum does not see zero entries. */
  lemma SumSame(m: map<Address, int>, n: map<Address, int>)
    requires forall a :: Get(m, a) == Get(n, a)
    ensures Sum(m) == Sum(n)
  {
    hide Sum;
    var both := map a | a in m && a in n :: m[a];
    forall a
      ensures a in m && a !in n ==> m[a] == 0
      ensures a in n && a !in m ==> n[a] == 0
      ensures a in m && a in n ==> m[a] == n[a]
    {
      assert Get(m, a) == Get(n, a);
    }
    SumZeros(m, both);
    SumZeros(n, both);
  }

  lemma SumChangedAt(m: map<Address, int>, n: map<Address, int>, x: Address)
    requires forall a :: a != x ==> Get(m, a) == Get(n, a)
    ensures Sum(n) == Sum(m) - Get(m, x) + Get(n, x)
  {
    hide Sum;
    SumRemove(m, x);
    SumRemove(n, x);
    forall a
      ensures Get(m - {x}, a) == Get(n - {x}, a)
    {
      assert a != x ==> Get(m, a) == Get(n, a);
    }
    SumSame(m - {x}, n - {x});
  }

  /** The coins on the face of an account. */
  function Worth(f: Face): int {
    f.stake.tokens + f.selfDelegation + (if f.undelegation.Some? then f.undelegation.value.quantity else 0) + f.balance
  }

  /** When the faces of all accounts but one keep their coins, the supply moves with that one. */
  lemma SupplyFollows(st: Store, r: Store, x: Address)
    requires PoolsOk(st) && PoolsOk(r)
    requires forall a :: a != x ==> SameCoins(FaceOf(st, a), FaceOf(r, a))
    ensures Supply(r) == Supply(st) - Worth(FaceOf(st, x)) + Worth(FaceOf(r, x))
  {
    hide Sum;
    forall a | a != x
      ensures Get(Tokens(st.delegators), a) == Get(Tokens(r.delegators), a)
      ensures Get(SelfDelegations(st.validators), a) == Get(SelfDelegations(r.validators), a)
      ensures Get(Quantities(st.undelegations), a) == Get(Quantities(r.undelegations), a)
      ensures Get(st.balances, a) == Get(r.balances, a)
    {
      assert SameCoins(FaceOf(st, a), FaceOf(r, a));
    }
    SumChangedAt(Tokens(st.delegators), Tokens(r.delegators), x);
    SumChangedAt(SelfDelegations(st.validators), SelfDelegations(r.validators), x);
    SumChangedAt(Quantities(st.undelegations), Quantities(r.undelegations), x);
    SumChangedAt(st.balances, r.balances, x);
  }

  predicate SameCoins(f: Face, g: Face) {
    f.stake.tokens == g.stake.tokens && f.selfDelegation == g.selfDelegation && f.balance == g.balance
    && (if f.undelegation.Some? then f.undelegation.value.quantity else 0) ==
       (if g.undelegation.Some? then g.undelegation.value.quantity else 0)
  }

  /** The meaning of a message moves coins of its sender only, and loses none. */
  lemma MeaningConserves(m: Message, ctx: Context, a: Address, f: Face)
    requires m.MsgCreateValidator? && a == m.del ==> f.selfDelegation == 0
    ensures Worth(FaceAfter(m, ctx, a, f)) == Worth(f)
    ensures a != m.del ==> SameCoins(f, FaceAfter(m, ctx, a, f))
  {
  }

  lemma MessageConserves(st: Store, ctx: Context, m: Message)
    requires ctx.Valid() && Inv(st, ctx) && Handle(st, ctx, m).Some?
    ensures Supply(Handle(st, ctx, m).value) == Supply(st)
  {
    hide Inv, Handle, PoolsOk, Supply, FaceOf, FaceAfter, SameCoins, Worth;
    var r := Handle(st, ctx, m).value;
    MessageKeeps(st, ctx, m);
    PoolsOf(st, ctx);
    forall a
      ensures FaceOf(r, a) == FaceAfter(m, ctx, a, FaceOf(st, a))
      ensures Worth(FaceOf(r, a)) == Worth(FaceOf(st, a))
      ensures a != m.del ==> SameCoins(FaceOf(st, a), FaceOf(r, a))
    {
      MessageMeans(st, ctx, m, a);
      NoSelfDelegation(st, a);
      MeaningConserves(m, ctx, a, FaceOf(st, a));
    }
    SupplyFollows(st, r, m.del);
  }

  lemma NoSelfDelegation(st: Store, a: Address)
    ensures a !in st.validators ==> FaceOf(st, a).selfDelegation == 0
  {
  }

  lemma {:induction false} CompleteConserves(st: Store, ctx: Context, keys: seq<TimeKey>)
    requires ctx.Valid() && Inv(st, ctx) && Ordered(keys) && (forall k :: k in keys ==> k in st.timeKeys)
    ensures Supply(CompleteLoop(st, keys)) == Supply(st)
    decreases |keys|
  {
    hide Inv, Ordered, Sum, Complete;
    if keys != [] {
      assert keys[0] in keys;
      CompleteKeeps(st, ctx, keys[0]);
      SumUpdate(st.balances, keys[0].delegator,
                BalanceOf(st, keys[0].delegator) + st.undelegations[keys[0].delegator].quantity);
      OrderedRest(keys);
      CompleteConserves(Complete(st, keys[0]), ctx, keys[1..]);
    }
  }

  lemma EndBlockConserves(st: Store, ctx: Context, endOfEpoch: bool)
    requires ctx.Valid() && Inv(st, ctx)
    ensures EndBlock(st, ctx, endOfEpoch).Ok? && Supply(EndBlock(st, ctx, endOfEpoch).value.0) == Supply(st)
  {
    hide Inv, EndOfSet, UnbondAllMature, CompleteLoop, MatureKeys, Sum;
    EndOfSetKeeps(st, ctx, endOfEpoch);
    var s := EndOfSet(st, ctx, endOfEpoch).value.0;
    UnbondAllMatureKeeps(s, ctx);
    var m := UnbondAllMature(s, ctx).value;
    CompleteConserves(m, ctx, MatureKeys(m, ctx));
  }

  /** No run of messages and end-blocks creates or loses a coin. */
  lemma {:induction false} RunConserves(st: Store, steps: seq<Step>, ctx: Context)
    requires ctx.Valid() && Inv(st, ctx) && AllowedRun(st, steps, ctx.powerReduction)
    requires forall i :: 0 <= i < |steps| ==> steps[i].ctx.Valid()
    ensures Run(st, steps).Ok? && Supply(Run(st, steps).value) == Supply(st)
    decreases |steps|
  {
    hide Inv, Do, Supply;
    if steps != [] {
      InvContext(st, ctx, steps[0].ctx);
      StepKeeps(st, steps[0]);
      StepConserves(st, steps[0]);
      InvContext(Do(st, steps[0]).value, steps[0].ctx, ctx);
      RunConserves(Do(st, steps[0]).value, steps[1..], ctx);
    }
  }

  lemma StepConserves(st: Store, step: Step)
    requires step.ctx.Valid() && Allowed(st, step, step.ctx.powerReduction) && Inv(st, step.ctx)
    ensures Do(st, step).Ok? && Supply(Do(st, step).value) == Supply(st)
  {
    hide Inv, Handle, EndBlock, Supply;
    match step
    case Deliver(ctx, m) =>
      if Handle(st, ctx, m).Some? {
        MessageConserves(st, ctx, m);
      }
    case EndOfBlock(ctx, endOfEpoch) => EndBlockConserves(st, ctx, endOfEpoch);
  }
}
