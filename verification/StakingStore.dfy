/** The staking store and its messages.  Key-value stores are maps; decimals are integers scaled
    by ONE; a message yields None when it fails, and is then rolled back. */
module StakingStore {
  import opened EvmTypes
  import opened Coins

  type Time = int

  datatype Status = Unbonded | Unbonding | Bonded

  datatype Validator = Validator(
    operator: Address,
    jailed: bool,
    status: Status,
    shares: int,
    minSelfDelegation: nat,
    unbondingTime: Time)
  {
    /** A destroyed validator has withdrawn its self delegation. */
    predicate Destroyed() {
      minSelfDelegation == 0 && jailed
    }
  }

  datatype Delegator = Delegator(
    validators: seq<Address>,
    shares: int,
    tokens: int,
    isProxy: bool,
    totalDelegated: int,
    proxy: Option<Address>)

  datatype PowerKey = PowerKey(power: int, operator: Address)
  datatype ShareKey = ShareKey(validator: Address, delegator: Address)
  datatype Binding = Binding(proxy: Address, delegator: Address)
  datatype TimeKey = TimeKey(time: Time, delegator: Address)
  datatype Undelegation = Undelegation(quantity: int, completion: Time)

  datatype Store = Store(
    validators: map<Address, Validator>,
    powerIndex: set<PowerKey>,
    lastPowers: map<Address, int>,
    lastTotal: int,
    queue: map<Time, seq<Address>>,
    abandoned: seq<Address>,
    shares: map<ShareKey, int>,
    delegators: map<Address, Delegator>,
    bindings: set<Binding>,
    undelegations: map<Address, Undelegation>,
    timeKeys: set<TimeKey>,
    bonded: int,
    notBonded: int,
    balances: map<Address, int>)

  /** Parameters and the block a message runs in.  rate is the decimal weight of the block's
      week; completion is when an undelegation made now completes, maturity when a validator
      that begins unbonding now has unbonded (the two delays differ after the level-up height). */
  datatype Context = Context(
    maxValidators: nat,
    maxValsToAddShares: nat,
    minDelegation: int,
    powerReduction: nat,
    now: Time,
    completion: Time,
    maturity: Time,
    rate: nat)
  {
    predicate Valid() {
      powerReduction > 0 && minDelegation > 0 && maxValidators > 0
    }

    /** Positive tokens have positive shares; see WeightPositive. */
    predicate Weighs() {
      2 * rate > ONE
    }
  }

  /** sharesToConsensusPower. */
  function Power(ctx: Context, shares: int): int
    requires ctx.Valid()
  {
    shares / ctx.powerReduction
  }

  function KeyOf(ctx: Context, v: Validator): PowerKey
    requires ctx.Valid()
  {
    PowerKey(Power(ctx, v.shares), v.operator)
  }

  /** chopPrecisionAndRound: round half to even. */
  function RoundHalfEven(p: int): int {
    var q, r := p / ONE, p % ONE;
    if 2 * r < ONE || (2 * r == ONE && q % 2 == 0) then q else q + 1
  }

  /** calculateWeight: the decimal product of tokens and weight. */
  function Weigh(ctx: Context, tokens: int): int {
    RoundHalfEven(tokens * ctx.rate)
  }

  // ---------- Store primitives ----------

  function SetValidator(st: Store, v: Validator): Store {
    st.(validators := st.validators[v.operator := v])
  }

  /** SetValidatorByPowerIndex: jailed validators are not indexed. */
  function SetIndex(st: Store, ctx: Context, v: Validator): Store
    requires ctx.Valid()
  {
    if v.jailed then st else st.(powerIndex := st.powerIndex + {KeyOf(ctx, v)})
  }

  function DeleteIndex(st: Store, ctx: Context, v: Validator): Store
    requires ctx.Valid()
  {
    st.(powerIndex := st.powerIndex - {KeyOf(ctx, v)})
  }

  /** Delete the index key of v, give it new shares, store it and index it again. */
  function Reweigh(st: Store, ctx: Context, v: Validator, shares: int): Store
    requires ctx.Valid()
  {
    var v' := v.(shares := shares);
    SetIndex(SetValidator(DeleteIndex(st, ctx, v), v'), ctx, v')
  }

  function SetDelegator(st: Store, a: Address, d: Delegator): Store {
    st.(delegators := st.delegators[a := d])
  }

  function NewDelegator(): Delegator {
    Delegator([], 0, 0, false, 0, None)
  }

  /** RemoveValidator; its callers only remove unbonded validators. */
  function RemoveValidator(st: Store, ctx: Context, a: Address): Store
    requires ctx.Valid()
  {
    if a !in st.validators then st
    else st.(validators := st.validators - {a}, powerIndex := st.powerIndex - {KeyOf(ctx, st.validators[a])})
  }

  // ---------- Shares ----------

  /** The listed validators that still exist, as read before any write. */
  function Existing(st: Store, vs: seq<Address>): seq<Validator> {
    if vs == [] then []
    else if vs[0] in st.validators then [st.validators[vs[0]]] + Existing(st, vs[1..])
    else Existing(st, vs[1..])
  }

  /** The loop of UpdateShares; it fails on a destroyed validator. */
  function UpdateLoop(st: Store, ctx: Context, del: Address, vals: seq<Validator>, last: int, shares: int): Option<Store>
    requires ctx.Valid()
    decreases |vals|
  {
    if vals == [] then Some(st)
    else if vals[0].minSelfDelegation == 0 then None
    else
      var st1 := st.(shares := st.shares[ShareKey(vals[0].operator, del) := shares]);
      UpdateLoop(Reweigh(st1, ctx, vals[0], vals[0].shares - last + shares), ctx, del, vals[1..], last, shares)
  }

  function UpdateShares(st: Store, ctx: Context, del: Address, tokens: int): Option<Store>
    requires ctx.Valid()
  {
    if del !in st.delegators then Some(st)
    else
      var d := st.delegators[del];
      var vals := Existing(st, d.validators);
      if vals == [] then Some(st)
      else
        var shares := Weigh(ctx, tokens);
        var r := UpdateLoop(st, ctx, del, vals, d.shares, shares);
        if r.None? then None else Some(SetDelegator(r.value, del, d.(shares := shares)))
  }

  /** withdrawShares. */
  function WithdrawOne(st: Store, ctx: Context, del: Address, v: Validator, shares: int): Store
    requires ctx.Valid()
  {
    var st1 := st.(shares := st.shares - {ShareKey(v.operator, del)});
    if v.status == Unbonded && v.minSelfDelegation == 0 && v.shares - shares == 0 then
      RemoveValidator(DeleteIndex(st1, ctx, v), ctx, v.operator)
    else Reweigh(st1, ctx, v, v.shares - shares)
  }

  /** WithdrawLastShares. */
  function WithdrawLoop(st: Store, ctx: Context, del: Address, vals: seq<Validator>, shares: int): Store
    requires ctx.Valid()
    decreases |vals|
  {
    if vals == [] then st
    else WithdrawLoop(WithdrawOne(st, ctx, del, vals[0], shares), ctx, del, vals[1..], shares)
  }

  /** AddSharesToValidators. */
  function AddLoop(st: Store, ctx: Context, del: Address, vals: seq<Validator>, shares: int): Store
    requires ctx.Valid()
    decreases |vals|
  {
    if vals == [] then st
    else
      var st1 := st.(shares := st.shares[ShareKey(vals[0].operator, del) := shares]);
      AddLoop(Reweigh(st1, ctx, vals[0], vals[0].shares + shares), ctx, del, vals[1..], shares)
  }

  /** A target is missing (GetValidatorsToAddShares) or destroyed (isDismissed). */
  predicate Unfit(st: Store, targets: seq<Address>) {
    exists t :: t in targets && (t !in st.validators || st.validators[t].minSelfDelegation == 0)
  }

  /** MsgAddShares; repeated targets are rejected by ValidateBasic. */
  function AddShares(st: Store, ctx: Context, del: Address, targets: seq<Address>): Option<Store>
    requires ctx.Valid()
  {
    if targets == [] || |targets| > ctx.maxValsToAddShares || !NoRepeats(targets) then None
    else if del !in st.delegators || st.delegators[del].tokens == 0 then None
    else
      var d := st.delegators[del];
      if d.proxy.Some? then None
      else
        var st1 := WithdrawLoop(st, ctx, del, Existing(st, d.validators), d.shares);
        if Unfit(st1, targets) then None
        else
          var shares := Weigh(ctx, d.tokens + d.totalDelegated);
          var st2 := AddLoop(st1, ctx, del, Existing(st1, targets), shares);
          Some(SetDelegator(st2, del, d.(validators := targets, shares := shares)))
  }

  // ---------- Deposits ----------

  /** UpdateProxy. */
  function UpdateProxy(st: Store, ctx: Context, d: Delegator, tokens: int): Option<Store>
    requires ctx.Valid()
  {
    if d.proxy.None? then Some(st)
    else if d.proxy.value !in st.delegators then None
    else
      var p := st.delegators[d.proxy.value];
      var p' := p.(totalDelegated := p.totalDelegated + tokens);
      if p'.totalDelegated < 0 then None
      else UpdateShares(SetDelegator(st, d.proxy.value, p'), ctx, d.proxy.value, p'.totalDelegated + p'.tokens)
  }

  function BalanceOf(st: Store, a: Address): int {
    if a in st.balances then st.balances[a] else 0
  }

  /** DelegateCoinsFromAccountToModule into the bonded pool. */
  function Bond(st: Store, a: Address, amount: int): Option<Store> {
    if amount < 0 || BalanceOf(st, a) < amount then None
    else Some(st.(balances := st.balances[a := BalanceOf(st, a) - amount], bonded := st.bonded + amount))
  }

  /** The tokens a delegator's shares are computed from. */
  function Weighed(d: Delegator): int {
    if d.isProxy then d.tokens + d.totalDelegated else d.tokens
  }

  /** MsgDeposit. */
  function Deposit(st: Store, ctx: Context, del: Address, amount: int): Option<Store>
    requires ctx.Valid()
  {
    if amount < ctx.minDelegation || Bond(st, del, amount).None? then None
    else
      var st1 := Bond(st, del, amount).value;
      var d := if del in st1.delegators then st1.delegators[del] else NewDelegator();
      var d' := d.(tokens := d.tokens + amount);
      var st2 := SetDelegator(st1, del, d');
      if d'.proxy.Some? then UpdateProxy(st2, ctx, d', amount)
      else UpdateShares(st2, ctx, del, Weighed(d'))
  }

  /** Move coins to the not-bonded pool and record the undelegation, resetting its time. */
  function Unbond(st: Store, ctx: Context, del: Address, quantity: int): Option<Store> {
    if st.bonded < quantity then None
    else
      var old' := if del in st.undelegations then {TimeKey(st.undelegations[del].completion, del)} else {};
      var before := if del in st.undelegations then st.undelegations[del].quantity else 0;
      Some(st.(bonded := st.bonded - quantity,
               notBonded := st.notBonded + quantity,
               undelegations := st.undelegations[del := Undelegation(before + quantity, ctx.completion)],
               timeKeys := st.timeKeys - old' + {TimeKey(ctx.completion, del)}))
  }

  /** MsgWithdraw. */
  function Withdraw(st: Store, ctx: Context, del: Address, quantity: int): Option<Store>
    requires ctx.Valid()
  {
    if del !in st.delegators then None
    else
      var d := st.delegators[del];
      if quantity < ctx.minDelegation || d.tokens < quantity then None
      else if d.isProxy && d.tokens - quantity == 0 then None
      else
        var st1 := UpdateProxy(st, ctx, d, -quantity);
        if st1.None? then None
        else
          var st2 :=
            if d.tokens - quantity == 0 then Some(Leave(st1.value, ctx, del, d))
            else Stay(st1.value, ctx, del, d.(tokens := d.tokens - quantity));
          if st2.None? then None else Unbond(st2.value, ctx, del, quantity)
  }

  /** A delegator that withdraws everything gives up its shares, its binding and its record. */
  function Leave(st: Store, ctx: Context, del: Address, d: Delegator): Store
    requires ctx.Valid()
  {
    var w := WithdrawLoop(st, ctx, del, Existing(st, d.validators), d.shares);
    w.(bindings := if d.proxy.Some? then w.bindings - {Binding(d.proxy.value, del)} else w.bindings,
       delegators := w.delegators - {del})
  }

  /** One that keeps some tokens has its record written and its shares updated. */
  function Stay(st: Store, ctx: Context, del: Address, d: Delegator): Option<Store>
    requires ctx.Valid()
  {
    var s := SetDelegator(st, del, d);
    if d.proxy.Some? then Some(s) else UpdateShares(s, ctx, del, Weighed(d))
  }

  // ---------- Proxies ----------

  /** unbindProxy. */
  function Unbind(st: Store, ctx: Context, del: Address): Option<Store>
    requires ctx.Valid()
  {
    if del !in st.delegators then None
    else
      var d := st.delegators[del];
      if d.proxy.None? || d.proxy.value !in st.delegators then None
      else
        var st1 := UpdateProxy(st, ctx, d, -d.tokens);
        if st1.None? then None
        else
          var st2 := SetDelegator(st1.value, del, d.(proxy := None));
          Some(st2.(bindings := st2.bindings - {Binding(d.proxy.value, del)}))
  }

  /** MsgBindProxy; binding to oneself is rejected by ValidateBasic. */
  function Bind(st: Store, ctx: Context, del: Address, proxy: Address): Option<Store>
    requires ctx.Valid()
  {
    if del == proxy || del !in st.delegators || st.delegators[del].tokens == 0 || st.delegators[del].shares != 0 then None
    else if proxy !in st.delegators || st.delegators[proxy].tokens == 0 || !st.delegators[proxy].isProxy then None
    else
      var d, p := st.delegators[del], st.delegators[proxy];
      if d.isProxy then None
      else if d.proxy == Some(proxy) then UpdateShares(st, ctx, proxy, p.totalDelegated + p.tokens)
      else
        var st1 := if d.proxy.Some? then Unbind(st, ctx, del) else Some(st);
        if st1.None? then None else Attach(st1.value, ctx, del, d, proxy, p)
  }

  /** Bind d, the record of del read before unbinding, to the proxy with record p. */
  function Attach(st: Store, ctx: Context, del: Address, d: Delegator, proxy: Address, p: Delegator): Option<Store>
    requires ctx.Valid()
  {
    var p' := p.(totalDelegated := p.totalDelegated + d.tokens);
    var st1 := SetDelegator(SetDelegator(st, del, d.(proxy := Some(proxy), isProxy := false)), proxy, p');
    var st2 := st1.(bindings := st1.bindings + {Binding(proxy, del)});
    UpdateShares(st2, ctx, proxy, p'.totalDelegated + p'.tokens)
  }

  /** MsgRegProxy with Reg. */
  function RegProxy(st: Store, ctx: Context, a: Address): Option<Store>
    requires ctx.Valid()
  {
    if a !in st.delegators then None
    else
      var d := st.delegators[a];
      if d.isProxy || d.proxy.Some? then None
      else UpdateShares(SetDelegator(st, a, d.(isProxy := true, proxy := None)), ctx, a, d.tokens)
  }

  /** The delegators bound to a proxy according to the binding keys. */
  function BoundTo(st: Store, proxy: Address): set<Address> {
    set b | b in st.bindings && b.proxy == proxy :: b.delegator
  }

  /** ClearProxy: unbind every delegator listed under the proxy and drop the keys. */
  function ClearProxy(st: Store, proxy: Address): Store {
    st.(delegators := map a | a in st.delegators ::
          if a in BoundTo(st, proxy) then st.delegators[a].(proxy := None) else st.delegators[a],
        bindings := set b | b in st.bindings && b.proxy != proxy)
  }

  /** MsgRegProxy without Reg. */
  function UnregProxy(st: Store, ctx: Context, a: Address): Option<Store>
    requires ctx.Valid()
  {
    if a !in st.delegators || !st.delegators[a].isProxy then None
    else
      var d := st.delegators[a].(isProxy := false, totalDelegated := 0);
      UpdateShares(SetDelegator(ClearProxy(st, a), a, d), ctx, a, d.tokens)
  }

  // ---------- Validators ----------

  /** MsgCreateValidator; ValidateBasic rejects a self delegation below 500. */
  function CreateValidator(st: Store, ctx: Context, a: Address, msd: nat): Option<Store>
    requires ctx.Valid()
  {
    if a in st.validators || msd < 500 * ONE then None
    else
      var v := Validator(a, false, Unbonded, 0, msd, 0);
      var st1 := SetIndex(SetValidator(st, v), ctx, v);
      var st2 := Bond(st1, a, msd);
      if st2.None? then None else Some(Reweigh(st2.value, ctx, v, v.shares + ONE))
  }

  /** MsgDestroyValidator: WithdrawMinSelfDelegation. */
  function DestroyValidator(st: Store, ctx: Context, a: Address): Option<Store>
    requires ctx.Valid()
  {
    if a !in st.validators || st.validators[a].minSelfDelegation == 0 then None
    else
      var v := st.validators[a];
      var remain := v.shares - ONE;
      if remain < 0 then None
      else
        var st1 := Unbond(st, ctx, a, v.minSelfDelegation);
        if st1.None? then None else Some(Dismiss(st1.value, ctx, v, remain))
  }

  /** The record of a destroyed validator: abandoned when bonded, removed when unbonded and
      without shares, otherwise jailed and out of the power index. */
  function Dismiss(st: Store, ctx: Context, v: Validator, remain: int): Store
    requires ctx.Valid()
  {
    if v.status == Unbonded && remain == 0 then RemoveValidator(st, ctx, v.operator)
    else
      var v' := v.(minSelfDelegation := 0, jailed := true, shares := remain);
      st.(abandoned := if v.status == Bonded then st.abandoned + [v.operator] else st.abandoned,
          powerIndex := st.powerIndex - {KeyOf(ctx, v)},
          validators := st.validators[v.operator := v'])
  }

  /** Jail, called by the slashing module; panics on a jailed validator. */
  function Jail(st: Store, ctx: Context, a: Address): Option<Store>
    requires ctx.Valid()
  {
    if a !in st.validators || st.validators[a].jailed then None
    else
      var v := st.validators[a].(jailed := true);
      Some(DeleteIndex(SetValidator(st, v), ctx, v))
  }

  /** Unjail, called by the slashing module; panics on an unjailed validator. */
  function Unjail(st: Store, ctx: Context, a: Address): Option<Store>
    requires ctx.Valid()
  {
    if a !in st.validators || !st.validators[a].jailed then None
    else
      var v := st.validators[a].(jailed := false);
      Some(SetIndex(SetValidator(st, v), ctx, v))
  }

  // ---------- Powers and weights ----------

  /** The power is the whole number of reductions in the shares. */
  lemma PowerIs(ctx: Context, shares: int)
    requires ctx.Valid()
    ensures Power(ctx, shares) * ctx.powerReduction <= shares < (Power(ctx, shares) + 1) * ctx.powerReduction
  {
    var q, p := Power(ctx, shares), ctx.powerReduction;
    assert (q + 1) * p == q * p + p;
  }

  /** s is p / ONE rounded to the nearest integer, ties to even. */
  predicate Rounds(s: int, p: int) {
    && 2 * (s * ONE - p) <= ONE
    && 2 * (p - s * ONE) <= ONE
    && (2 * (s * ONE - p) == ONE || 2 * (p - s * ONE) == ONE ==> s % 2 == 0)
  }

  /** The shares are the product of tokens and weight, rounded half to even. */
  lemma WeighRounds(ctx: Context, tokens: int)
    ensures Rounds(Weigh(ctx, tokens), tokens * ctx.rate)
  {
    var p := tokens * ctx.rate;
    assert p == (p / ONE) * ONE + p % ONE;
  }

  /** Which determines them. */
  lemma RoundsUnique(s: int, t: int, p: int)
    requires Rounds(s, p) && Rounds(t, p)
    ensures s == t
  {
    assert s < t ==> s * ONE + ONE <= t * ONE;
    assert t < s ==> t * ONE + ONE <= s * ONE;
    assert s <= t + 1 && t <= s + 1;
  }

  /** More tokens never weigh less. */
  lemma WeighMonotone(ctx: Context, t: int, u: int)
    requires t <= u
    ensures Weigh(ctx, t) <= Weigh(ctx, u)
  {
    WeighRounds(ctx, t);
    WeighRounds(ctx, u);
    assert t * ctx.rate <= u * ctx.rate;
    RoundsMonotone(Weigh(ctx, t), Weigh(ctx, u), t * ctx.rate, u * ctx.rate);
  }

  lemma RoundsMonotone(s: int, t: int, p: int, q: int)
    requires Rounds(s, p) && Rounds(t, q) && p <= q
    ensures s <= t
  {
    if t < s {
      assert t * ONE + ONE <= s * ONE;
      assert Rounds(t, p);
      RoundsUnique(s, t, p);
    }
  }

  /** Without a fractional part nothing is rounded. */
  lemma WeighExact(ctx: Context, tokens: int, s: int)
    requires tokens * ctx.rate == s * ONE
    ensures Weigh(ctx, tokens) == s
  {
    WeighRounds(ctx, tokens);
    RoundsUnique(Weigh(ctx, tokens), s, tokens * ctx.rate);
  }

  /** No positive amount of tokens weighs nothing exactly when the weight is above one half. */
  lemma WeightPositive(ctx: Context)
    ensures (forall tokens: int :: tokens > 0 ==> Weigh(ctx, tokens) > 0) <==> ctx.Weighs()
  {
    if 2 * ctx.rate > ONE {
      forall tokens: int | tokens > 0
        ensures Weigh(ctx, tokens) > 0
      {
        MulMonotone(ctx.rate, 1, tokens);
        RoundsUp(tokens * ctx.rate);
      }
    } else {
      assert 1 * ctx.rate == ctx.rate;
      assert Weigh(ctx, 1) <= 0;
    }
  }

  lemma WeighNonNegative(ctx: Context, tokens: int)
    requires tokens >= 0
    ensures Weigh(ctx, tokens) >= 0
  {
    assert tokens * ctx.rate >= 0;
  }

  lemma RoundsUp(p: int)
    requires 2 * p > ONE
    ensures RoundHalfEven(p) > 0
  {
  }
}
