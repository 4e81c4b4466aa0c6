/** Every run of staking messages and end-blocks, from the empty store on. */
module StakingRuns {
  import opened EvmTypes
  import opened Coins
  import opened Sums
  import opened StakingStore
  import opened StakingInvariants
  import opened StakingMessages
  import opened ProxyMessages
  import opened DelegatorMessages
  import opened ValidatorMessages
  import opened ValidatorSet
  import opened Elections
  import opened EpochElections
  import opened KickOuts
  import opened EndBlocks

  datatype Message =
    | MsgDeposit(del: Address, amount: int)
    | MsgWithdraw(del: Address, amount: int)
    | MsgAddShares(del: Address, targets: seq<Address>)
    | MsgBindProxy(del: Address, proxy: Address)
    | MsgUnbindProxy(del: Address)
    | MsgRegProxy(del: Address, reg: bool)
    | MsgCreateValidator(del: Address, msd: nat)
    | MsgDestroyValidator(del: Address)
    | Jailing(del: Address)
    | Unjailing(del: Address)

  datatype Step = Deliver(ctx: Context, message: Message) | EndOfBlock(ctx: Context, endOfEpoch: bool)

  /** The handler; Jail and Unjail are called by the slashing module. */
  function Handle(st: Store, ctx: Context, m: Message): Option<Store>
    requires ctx.Valid()
  {
    match m
    case MsgDeposit(a, amount) => Deposit(st, ctx, a, amount)
    case MsgWithdraw(a, amount) => Withdraw(st, ctx, a, amount)
    case MsgAddShares(a, targets) => AddShares(st, ctx, a, targets)
    case MsgBindProxy(a, proxy) => Bind(st, ctx, a, proxy)
    case MsgUnbindProxy(a) => Unbind(st, ctx, a)
    case MsgRegProxy(a, reg) => if reg then RegProxy(st, ctx, a) else UnregProxy(st, ctx, a)
    case MsgCreateValidator(a, msd) => CreateValidator(st, ctx, a, msd)
    case MsgDestroyValidator(a) => DestroyValidator(st, ctx, a)
    case Jailing(a) => Jail(st, ctx, a)
    case Unjailing(a) => Unjail(st, ctx, a)
  }

  /** A failed message is rolled back; an end-block that panics halts the chain. */
  function Do(st: Store, step: Step): Outcome<Store>
    requires step.ctx.Valid()
  {
    match step
    case Deliver(ctx, m) =>
      var r := Handle(st, ctx, m);
      Ok(if r.None? then st else r.value)
    case EndOfBlock(ctx, endOfEpoch) =>
      var r := EndBlock(st, ctx, endOfEpoch);
      if r.Panic? then Panic else Ok(r.value.0)
  }

  function Run(st: Store, steps: seq<Step>): Outcome<Store>
    requires forall i :: 0 <= i < |steps| ==> steps[i].ctx.Valid()
    decreases |steps|
  {
    if steps == [] then Ok(st)
    else
      var r := Do(st, steps[0]);
      if r.Panic? then Panic else Run(r.value, steps[1..])
  }

  /** The condition, visible before the call, under which a message keeps the invariant: a
      validator that is unjailed still has a self delegation, and an address at which one is
      created is not listed by a delegator with shares. */
  predicate Sound(st: Store, m: Message) {
    && (m.Unjailing? && m.del in st.validators ==> st.validators[m.del].minSelfDelegation != 0)
    && (m.MsgCreateValidator? && m.del !in st.validators ==> Unclaimed(st, m.del))
  }

  /** What is asked of a step: the power reduction is a constant and messages are sound. */
  ghost predicate Allowed(st: Store, step: Step, reduction: nat) {
    && step.ctx.Valid() && step.ctx.powerReduction == reduction
    && (step.Deliver? ==> Sound(st, step.message))
  }

  ghost predicate AllowedRun(st: Store, steps: seq<Step>, reduction: nat)
    decreases |steps|
  {
    steps == [] ||
    (Allowed(st, steps[0], reduction) &&
     (Do(st, steps[0]).Ok? ==> AllowedRun(Do(st, steps[0]).value, steps[1..], reduction)))
  }

  // ---------- Keeping the invariant ----------

  /** The invariant depends on the context through the power reduction only. */
  lemma InvContext(st: Store, c: Context, d: Context)
    requires c.Valid() && d.Valid() && c.powerReduction == d.powerReduction && Inv(st, c)
    ensures Inv(st, d)
  {
    hide RecordsOk, LastOk, QueueOk, AbandonedOk, SharesOk, DelegatorsOk, UndelegationsOk, PoolsOk;
    forall k
      ensures k in st.powerIndex <==> Indexes(st, d, k)
    {
      assert k in st.powerIndex <==> Indexes(st, c, k);
    }
  }

  /** The status changes a change of the set makes. */
  predicate Transition(v: Status, w: Status) {
    v == w || (v == Unbonded && w == Bonded) || (v == Unbonding && w == Bonded) || (v == Bonded && w == Unbonding)
  }

  /** A message that succeeds keeps the invariant if and only if it is sound.  None changes a
      status, and only creation adds a validator. */
  lemma MessageKeeps(st: Store, ctx: Context, m: Message)
    requires ctx.Valid() && Inv(st, ctx) && Handle(st, ctx, m).Some?
    ensures Inv(Handle(st, ctx, m).value, ctx) <==> Sound(st, m)
    ensures PoolsOk(Handle(st, ctx, m).value)
    ensures !m.MsgCreateValidator? ==> StatusKept(st.validators, Handle(st, ctx, m).value.validators)
    ensures m.MsgCreateValidator? ==>
              && m.del !in st.validators
              && Handle(st, ctx, m).value.validators == st.validators[m.del := Validator(m.del, false, Unbonded, ONE, m.msd, 0)]
  {
    hide Inv, StatusKept, PoolsOk, Deposit, Withdraw, AddShares, Bind, Unbind, RegProxy, UnregProxy, CreateValidator,
      DestroyValidator, Jail, Unjail, Unclaimed;
    match m {
      case MsgDeposit(a, amount) => DepositKeeps(st, ctx, a, amount);
      case MsgWithdraw(a, amount) => WithdrawKeeps(st, ctx, a, amount);
      case MsgAddShares(a, targets) => AddSharesInv(st, ctx, a, targets);
      case MsgBindProxy(a, proxy) => BindKeeps(st, ctx, a, proxy);
      case MsgUnbindProxy(a) => UnbindKeeps(st, ctx, a);
      case MsgRegProxy(a, reg) => if reg { RegProxyKeeps(st, ctx, a); } else { UnregProxyKeeps(st, ctx, a); }
      case MsgCreateValidator(a, msd) => CreateKeeps(st, ctx, a, msd);
      case MsgDestroyValidator(a) => DestroyKeeps(st, ctx, a);
      case Jailing(a) => JailKeeps(st, ctx, a);
      case Unjailing(a) => UnjailKeeps(st, ctx, a);
    }
    if Inv(Handle(st, ctx, m).value, ctx) {
      PoolsOf(Handle(st, ctx, m).value, ctx);
    }
  }

  lemma PoolsOf(st: Store, ctx: Context)
    requires ctx.Valid() && Inv(st, ctx)
    ensures PoolsOk(st)
  {
    hide ValidatorsOk, SharesOk, DelegatorsOk, UndelegationsOk, PoolsOk;
  }

  /** One step succeeds and keeps the invariant. */
  lemma StepKeeps(st: Store, step: Step)
    requires step.ctx.Valid() && Allowed(st, step, step.ctx.powerReduction) && Inv(st, step.ctx)
    ensures Do(st, step).Ok? && Inv(Do(st, step).value, step.ctx)
  {
    hide Inv, Handle, EndBlock;
    match step
    case Deliver(ctx, m) =>
      if Handle(st, ctx, m).Some? {
        MessageKeeps(st, ctx, m);
      }
    case EndOfBlock(ctx, endOfEpoch) => EndBlockKeeps(st, ctx, endOfEpoch);
  }

  /** Every reachable state satisfies the invariant, and no end-block ever panics. */
  lemma {:induction false} RunKeeps(st: Store, steps: seq<Step>, ctx: Context)
    requires ctx.Valid() && Inv(st, ctx) && AllowedRun(st, steps, ctx.powerReduction)
    requires forall i :: 0 <= i < |steps| ==> steps[i].ctx.Valid()
    ensures Run(st, steps).Ok? && Inv(Run(st, steps).value, ctx)
    decreases |steps|
  {
    hide Inv, Do;
    if steps != [] {
      InvContext(st, ctx, steps[0].ctx);
      StepKeeps(st, steps[0]);
      InvContext(Do(st, steps[0]).value, steps[0].ctx, ctx);
      RunKeeps(Do(st, steps[0]).value, steps[1..], ctx);
    }
  }

  /** The store before the first message, with any balances. */
  function Genesis(balances: map<Address, int>): Store {
    Store(map[], {}, map[], 0, map[], [], map[], map[], {}, map[], {}, 0, 0, balances)
  }

  lemma GenesisInv(balances: map<Address, int>, ctx: Context)
    requires ctx.Valid()
    ensures Inv(Genesis(balances), ctx)
  {
    var st := Genesis(balances);
    assert Tokens(st.delegators) == map[] && SelfDelegations(st.validators) == map[] && Quantities(st.undelegations) == map[];
  }

  // ---------- The invariants the program registers ----------

  /** The four invariants of RegisterInvariantsCustom. */
  ghost predicate Registered(st: Store, ctx: Context)
    requires ctx.Valid()
  {
    && (forall a :: a in st.validators ==>
          st.validators[a].shares ==
          (if st.validators[a].minSelfDelegation == 0 && st.validators[a].jailed then 0 else ONE) + ShareSum(st.shares, a))
    && (forall a :: a in st.delegators ==> st.delegators[a].tokens > 0)
    && (forall k :: k in st.powerIndex ==>
          && k.operator in st.validators && k == KeyOf(ctx, st.validators[k.operator])
          && st.validators[k.operator].shares >= 0)
    && st.bonded == Sum(SelfDelegations(st.validators)) + Sum(Tokens(st.delegators))
    && st.notBonded == Sum(Quantities(st.undelegations))
  }

  lemma InvRegistered(st: Store, ctx: Context)
    requires ctx.Valid() && Inv(st, ctx)
    ensures Registered(st, ctx)
  {
    hide LastOk, QueueOk, AbandonedOk, UndelegationsOk, ShareSum, Sum, Tokens, SelfDelegations, Quantities, Power;
    SharesNonNegative(st);
    forall a | a in st.validators
      ensures SharesAt(st, a)
    {
    }
    forall a | a in st.delegators
      ensures DelegatorOk(st, a)
    {
    }
    forall k | k in st.powerIndex
      ensures Indexes(st, ctx, k)
    {
    }
  }

  /** In every state reachable from genesis the registered invariants hold. */
  lemma ReachableRegistered(balances: map<Address, int>, steps: seq<Step>, ctx: Context)
    requires ctx.Valid() && AllowedRun(Genesis(balances), steps, ctx.powerReduction)
    requires forall i :: 0 <= i < |steps| ==> steps[i].ctx.Valid()
    ensures Run(Genesis(balances), steps).Ok? && Registered(Run(Genesis(balances), steps).value, ctx)
  {
    hide Inv, Registered, Run, AllowedRun;
    GenesisInv(balances, ctx);
    RunKeeps(Genesis(balances), steps, ctx);
    InvRegistered(Run(Genesis(balances), steps).value, ctx);
  }

  /** What the invariant says about one delegator: it has its recorded shares on each listed
      validator that exists and none anywhere else, its proxy is a proxy that is not itself bound,
      and its total is what is bound to it. */
  lemma InvDelegator(st: Store, ctx: Context, del: Address)
    requires ctx.Valid() && Inv(st, ctx) && del in st.delegators
    ensures
      var d := st.delegators[del];
      && (forall v :: ShareAt(st.shares, ShareKey(v, del)) == if v in d.validators && v in st.validators then d.shares else 0)
      && (d.proxy.Some? ==>
            && d.proxy.value in st.delegators && st.delegators[d.proxy.value].isProxy && d.shares == 0
            && st.delegators[d.proxy.value].proxy.None? && Binding(d.proxy.value, del) in st.bindings)
      && d.totalDelegated == Sum(BoundTokens(st.delegators, del))
      && (!d.isProxy ==> d.totalDelegated == 0)
  {
    hide ValidatorsOk, PoolsOk, UndelegationsOk, Sum, BoundTokens, ShareTotalsOk;
    var d := st.delegators[del];
    assert DelegatorOk(st, del) && ProxyTotalOk(st, del);
    forall v
      ensures ShareAt(st.shares, ShareKey(v, del)) == if v in d.validators && v in st.validators then d.shares else 0
    {
      assert ShareAt(st.shares, ShareKey(v, del)) == Recorded(st, ShareKey(v, del));
    }
    if d.proxy.Some? {
      assert DelegatorOk(st, d.proxy.value);
      assert Binds(st, Binding(d.proxy.value, del));
    }
  }

  // ---------- Status changes ----------

  /** The change of the set never completes an unbonding; only maturing does. */
  lemma SetTransitions(st: Store, ctx: Context, endOfEpoch: bool, a: Address)
    requires ctx.Valid() && Inv(st, ctx) && a in st.validators
    ensures
      var r := EndOfSet(st, ctx, endOfEpoch);
      && r.Ok? && a in r.value.0.validators
      && Transition(st.validators[a].status, r.value.0.validators[a].status)
  {
    hide RecordsOk, IndexOk, QueueOk, LastOk, SharesOk, DelegatorsOk, UndelegationsOk, PoolsOk, NonNegative,
      ApplyUpdates, KickOut, Elected, Promoted, Applied, ExactDiff, PowersOf, Power;
    SharesNonNegative(st);
    if endOfEpoch {
      ApplyElects(st, ctx);
    } else if st.abandoned != [] {
      AbandonedAreBonded(st);
      KickOutReplaces(st, ctx);
      assert a in st.abandoned ==> Abandons(st, a);
    }
  }

  /** Maturing changes no status but unbonding to unbonded, and removes only empty validators. */
  lemma MatureTransitions(st: Store, ctx: Context, a: Address)
    requires ctx.Valid() && Inv(st, ctx)
    ensures
      var r := UnbondAllMature(st, ctx);
      && r.Ok?
      && (a in r.value.validators ==>
            && a in st.validators
            && (r.value.validators[a].status == st.validators[a].status
                || (st.validators[a].status == Unbonding && r.value.validators[a].status == Unbonded)))
      && (a in st.validators && a !in r.value.validators ==> st.validators[a].status == Unbonding && Empty(st.validators[a]))
  {
    hide Inv, UnbondAllMature;
    UnbondAllMatureKeeps(st, ctx);
  }
}
