/** What a message does to the validator records and to the validator set: which record it changes
    and how, which validator goes, and what stays as it was. */
module StakingFrames {
  import opened EvmTypes
  import opened Coins
  import opened Sums
  import opened StakingStore
  import opened StakingInvariants
  import opened ShareUpdates
  import opened ShareMoves
  import opened Proxies
  import opened StakingMessages
  import opened ProxyMessages
  import opened DelegatorMessages
  import opened ValidatorMessages
  import opened ValidatorSet
  import opened Elections
  import opened EpochElections
  import opened KickOuts
  import opened EndBlocks
  import opened StakingRuns
  import opened StakingMeanings
  import opened StakingLive

  /** Nothing is left on the record. */
  predicate Spent(v: Validator) {
    v.status == Unbonded && v.minSelfDelegation == 0 && v.shares == 0
  }

  /** No record is kept for nothing. */
  ghost predicate Tidy(st: Store) {
    forall a :: a in st.validators ==> !Spent(st.validators[a])
  }

  ghost predicate Named(st: Store) {
    forall a :: a in st.validators ==> st.validators[a].operator == a
  }

  /** The same record but for the shares. */
  predicate Reshared(v: Validator, w: Validator) {
    w == v.(shares := w.shares)
  }

  /** Share operations: records change in their shares alone, only unbonded validators without
      self delegation go, none is kept for nothing, and the validator set stays. */
  ghost predicate Kept(st: Store, r: Store) {
    && (forall a :: a in r.validators ==> a in st.validators && Reshared(st.validators[a], r.validators[a]))
    && (forall a :: a in st.validators && a !in r.validators ==>
          st.validators[a].status == Unbonded && st.validators[a].minSelfDelegation == 0)
    && SetStays(st, r)
    && (Tidy(st) ==> Tidy(r))
  }

  ghost predicate SetStays(st: Store, r: Store) {
    r.lastPowers == st.lastPowers && r.lastTotal == st.lastTotal && r.queue == st.queue && r.abandoned == st.abandoned
  }

  lemma KeptSame(st: Store, s: Store, r: Store)
    requires Kept(st, s) && r.validators == s.validators && SetStays(s, r)
    ensures Kept(st, r)
  {
  }

  lemma KeptSelf(st: Store)
    ensures Kept(st, st)
  {
  }

  lemma KeptBoth(x: Store, y: Store, z: Store)
    requires Kept(x, y) && Kept(y, z)
    ensures Kept(x, z)
  {
  }

  lemma KeptNamed(st: Store, r: Store)
    requires Named(st) && Kept(st, r)
    ensures Named(r)
  {
  }

  /** Records read from st, perhaps before others were written. */
  ghost predicate Copies(st: Store, vals: seq<Validator>) {
    forall i :: 0 <= i < |vals| ==> vals[i].operator in st.validators && vals[i] == st.validators[vals[i].operator]
  }

  lemma CopiesRest(st: Store, vals: seq<Validator>)
    requires Copies(st, vals) && vals != []
    ensures Copies(st, vals[1..])
  {
    assert forall i :: 0 <= i < |vals[1..]| ==> vals[1..][i] == vals[i + 1];
  }

  lemma {:induction false} ExistingCopies(st: Store, vs: seq<Address>)
    requires Named(st)
    ensures Copies(st, Existing(st, vs))
    ensures forall i :: 0 <= i < |Existing(st, vs)| ==> Existing(st, vs)[i].operator in vs
  {
    if vs != [] {
      ExistingCopies(st, vs[1..]);
    }
  }

  lemma ReweighKept(st: Store, s: Store, ctx: Context, v: Validator, shares: int)
    requires ctx.Valid() && Kept(st, s) && v.operator in st.validators && v == st.validators[v.operator]
    requires !Spent(v.(shares := shares))
    ensures Kept(st, Reweigh(s, ctx, v, shares))
  {
    hide Power;
  }

  lemma {:induction false} UpdateLoopKept(st: Store, s: Store, ctx: Context, del: Address, vals: seq<Validator>, last: int, shares: int)
    requires ctx.Valid() && Kept(st, s) && Copies(st, vals) && UpdateLoop(s, ctx, del, vals, last, shares).Some?
    ensures Kept(st, UpdateLoop(s, ctx, del, vals, last, shares).value)
    decreases |vals|
  {
    hide Kept, Reweigh, Copies;
    if vals != [] {
      FirstCopy(st, vals);
      CopiesRest(st, vals);
      var s1 := s.(shares := s.shares[ShareKey(vals[0].operator, del) := shares]);
      KeptSame(st, s, s1);
      ReweighKept(st, s1, ctx, vals[0], vals[0].shares - last + shares);
      UpdateLoopKept(st, Reweigh(s1, ctx, vals[0], vals[0].shares - last + shares), ctx, del, vals[1..], last, shares);
    }
  }

  lemma FirstCopy(st: Store, vals: seq<Validator>)
    requires Copies(st, vals) && vals != []
    ensures vals[0].operator in st.validators && vals[0] == st.validators[vals[0].operator]
  {
  }

  lemma UpdateSharesKept(st: Store, ctx: Context, del: Address, tokens: int)
    requires ctx.Valid() && Named(st) && UpdateShares(st, ctx, del, tokens).Some?
    ensures Kept(st, UpdateShares(st, ctx, del, tokens).value)
  {
    hide Kept, Copies, Existing, UpdateLoop, Weigh;
    KeptSelf(st);
    if del in st.delegators {
      var d := st.delegators[del];
      var vals := Existing(st, d.validators);
      ExistingCopies(st, d.validators);
      if vals != [] {
        UpdateLoopKept(st, st, ctx, del, vals, d.shares, Weigh(ctx, tokens));
        var u := UpdateLoop(st, ctx, del, vals, d.shares, Weigh(ctx, tokens)).value;
        KeptSame(st, u, UpdateShares(st, ctx, del, tokens).value);
      }
    }
  }

  lemma WithdrawOneKept(st: Store, s: Store, ctx: Context, del: Address, v: Validator, shares: int)
    requires ctx.Valid() && Kept(st, s) && v.operator in st.validators && v == st.validators[v.operator]
    ensures Kept(st, WithdrawOne(s, ctx, del, v, shares))
  {
    hide Power, Reweigh, RemoveValidator, Kept;
    var s1 := s.(shares := s.shares - {ShareKey(v.operator, del)});
    KeptSame(st, s, s1);
    if v.status == Unbonded && v.minSelfDelegation == 0 && v.shares - shares == 0 {
      KeptSame(st, s1, DeleteIndex(s1, ctx, v));
      RemovedKept(st, DeleteIndex(s1, ctx, v), ctx, v.operator);
    } else {
      ReweighKept(st, s1, ctx, v, v.shares - shares);
    }
  }

  lemma RemovedKept(st: Store, s: Store, ctx: Context, a: Address)
    requires ctx.Valid() && Kept(st, s) && a in st.validators
    requires st.validators[a].status == Unbonded && st.validators[a].minSelfDelegation == 0
    ensures Kept(st, RemoveValidator(s, ctx, a))
  {
    hide Power, Reshared, Spent;
  }

  lemma {:induction false} WithdrawLoopKept(st: Store, s: Store, ctx: Context, del: Address, vals: seq<Validator>, shares: int)
    requires ctx.Valid() && Kept(st, s) && Copies(st, vals)
    ensures Kept(st, WithdrawLoop(s, ctx, del, vals, shares))
    decreases |vals|
  {
    hide Kept, WithdrawOne, Copies;
    if vals != [] {
      FirstCopy(st, vals);
      CopiesRest(st, vals);
      WithdrawOneKept(st, s, ctx, del, vals[0], shares);
      WithdrawLoopKept(st, WithdrawOne(s, ctx, del, vals[0], shares), ctx, del, vals[1..], shares);
    }
  }

  lemma WithdrawAllKept(st: Store, ctx: Context, del: Address, vs: seq<Address>, shares: int)
    requires ctx.Valid() && Named(st)
    ensures Kept(st, WithdrawLoop(st, ctx, del, Existing(st, vs), shares))
  {
    hide Kept, Copies, WithdrawLoop, Existing;
    KeptSelf(st);
    ExistingCopies(st, vs);
    WithdrawLoopKept(st, st, ctx, del, Existing(st, vs), shares);
  }

  lemma {:induction false} AddLoopKept(st: Store, s: Store, ctx: Context, del: Address, vals: seq<Validator>, shares: int)
    requires ctx.Valid() && Kept(st, s) && Copies(st, vals)
    requires forall i :: 0 <= i < |vals| ==> vals[i].minSelfDelegation != 0
    ensures Kept(st, AddLoop(s, ctx, del, vals, shares))
    decreases |vals|
  {
    hide Kept, Reweigh, Copies;
    if vals != [] {
      FirstCopy(st, vals);
      CopiesRest(st, vals);
      var s1 := s.(shares := s.shares[ShareKey(vals[0].operator, del) := shares]);
      KeptSame(st, s, s1);
      ReweighKept(st, s1, ctx, vals[0], vals[0].shares + shares);
      AddLoopKept(st, Reweigh(s1, ctx, vals[0], vals[0].shares + shares), ctx, del, vals[1..], shares);
    }
  }

  lemma AddAllKept(st: Store, ctx: Context, del: Address, targets: seq<Address>, shares: int)
    requires ctx.Valid() && Named(st) && !Unfit(st, targets)
    ensures Kept(st, AddLoop(st, ctx, del, Existing(st, targets), shares))
  {
    hide Kept, AddLoop;
    KeptSelf(st);
    ExistingCopies(st, targets);
    AddLoopKept(st, st, ctx, del, Existing(st, targets), shares);
  }

  // ---------- The messages of delegators ----------

  lemma AddSharesKept(st: Store, ctx: Context, del: Address, targets: seq<Address>)
    requires ctx.Valid() && Named(st) && AddShares(st, ctx, del, targets).Some?
    ensures Kept(st, AddShares(st, ctx, del, targets).value)
  {
    hide Kept, AddLoop, WithdrawLoop, Existing, Unfit, Weigh, Named;
    var d := st.delegators[del];
    var st1 := WithdrawLoop(st, ctx, del, Existing(st, d.validators), d.shares);
    WithdrawAllKept(st, ctx, del, d.validators, d.shares);
    KeptNamed(st, st1);
    var shares := Weigh(ctx, d.tokens + d.totalDelegated);
    AddAllKept(st1, ctx, del, targets, shares);
    var st2 := AddLoop(st1, ctx, del, Existing(st1, targets), shares);
    KeptBoth(st, st1, st2);
    KeptSame(st, st2, AddShares(st, ctx, del, targets).value);
  }

  lemma WrittenKept(st: Store, s: Store, ctx: Context, del: Address, tokens: int)
    requires ctx.Valid() && Named(st) && s.validators == st.validators && SetStays(st, s)
    requires UpdateShares(s, ctx, del, tokens).Some?
    ensures Kept(st, UpdateShares(s, ctx, del, tokens).value)
  {
    hide Kept, UpdateShares;
    KeptSelf(st);
    KeptSame(st, st, s);
    UpdateSharesKept(s, ctx, del, tokens);
    KeptBoth(st, s, UpdateShares(s, ctx, del, tokens).value);
  }

  lemma UpdateProxyKept(st: Store, ctx: Context, d: Delegator, tokens: int)
    requires ctx.Valid() && Named(st) && UpdateProxy(st, ctx, d, tokens).Some?
    ensures Kept(st, UpdateProxy(st, ctx, d, tokens).value)
  {
    hide Kept, UpdateShares, Named;
    KeptSelf(st);
    if d.proxy.Some? {
      var p := st.delegators[d.proxy.value];
      var p' := p.(totalDelegated := p.totalDelegated + tokens);
      WrittenKept(st, SetDelegator(st, d.proxy.value, p'), ctx, d.proxy.value, p'.totalDelegated + p'.tokens);
    }
  }

  lemma DepositKept(st: Store, ctx: Context, del: Address, amount: int)
    requires ctx.Valid() && Named(st) && Deposit(st, ctx, del, amount).Some?
    ensures Kept(st, Deposit(st, ctx, del, amount).value)
  {
    hide Kept, UpdateShares, UpdateProxy;
    var st1 := Bond(st, del, amount).value;
    var d := if del in st1.delegators then st1.delegators[del] else NewDelegator();
    var d' := d.(tokens := d.tokens + amount);
    var st2 := SetDelegator(st1, del, d');
    KeptSelf(st);
    KeptSame(st, st, st2);
    if d'.proxy.Some? {
      UpdateProxyKept(st2, ctx, d', amount);
      KeptBoth(st, st2, UpdateProxy(st2, ctx, d', amount).value);
    } else {
      WrittenKept(st, st2, ctx, del, Weighed(d'));
    }
  }

  lemma WithdrawKept(st: Store, ctx: Context, del: Address, quantity: int)
    requires ctx.Valid() && Named(st) && Withdraw(st, ctx, del, quantity).Some?
    ensures Kept(st, Withdraw(st, ctx, del, quantity).value)
  {
    hide Kept, UpdateProxy, Leave, Stay, Named;
    var d := st.delegators[del];
    UpdateProxyKept(st, ctx, d, -quantity);
    var s := UpdateProxy(st, ctx, d, -quantity).value;
    KeptNamed(st, s);
    var d' := d.(tokens := d.tokens - quantity);
    var t := if d.tokens - quantity == 0 then Leave(s, ctx, del, d) else Stay(s, ctx, del, d').value;
    if d.tokens - quantity == 0 {
      LeaveKept(s, ctx, del, d);
    } else {
      StayKept(s, ctx, del, d');
    }
    KeptBoth(st, s, t);
    KeptSame(st, t, Withdraw(st, ctx, del, quantity).value);
  }

  lemma LeaveKept(st: Store, ctx: Context, del: Address, d: Delegator)
    requires ctx.Valid() && Named(st)
    ensures Kept(st, Leave(st, ctx, del, d))
  {
    hide Kept, WithdrawLoop, Existing, Named;
    WithdrawAllKept(st, ctx, del, d.validators, d.shares);
    KeptSame(st, WithdrawLoop(st, ctx, del, Existing(st, d.validators), d.shares), Leave(st, ctx, del, d));
  }

  lemma StayKept(st: Store, ctx: Context, del: Address, d: Delegator)
    requires ctx.Valid() && Named(st) && Stay(st, ctx, del, d).Some?
    ensures Kept(st, Stay(st, ctx, del, d).value)
  {
    hide Kept, UpdateShares, Named;
    KeptSelf(st);
    KeptSame(st, st, SetDelegator(st, del, d));
    if d.proxy.None? {
      WrittenKept(st, SetDelegator(st, del, d), ctx, del, Weighed(d));
    }
  }

  lemma UnbindKept(st: Store, ctx: Context, del: Address)
    requires ctx.Valid() && Named(st) && Unbind(st, ctx, del).Some?
    ensures Kept(st, Unbind(st, ctx, del).value)
  {
    hide Kept, UpdateProxy, Named;
    var d := st.delegators[del];
    UpdateProxyKept(st, ctx, d, -d.tokens);
    KeptSame(st, UpdateProxy(st, ctx, d, -d.tokens).value, Unbind(st, ctx, del).value);
  }

  lemma BindKept(st: Store, ctx: Context, del: Address, proxy: Address)
    requires ctx.Valid() && Named(st) && Bind(st, ctx, del, proxy).Some?
    ensures Kept(st, Bind(st, ctx, del, proxy).value)
  {
    hide Kept, UpdateShares, Unbind, Named, Attach;
    var d, p := st.delegators[del], st.delegators[proxy];
    if d.proxy == Some(proxy) {
      UpdateSharesKept(st, ctx, proxy, p.totalDelegated + p.tokens);
    } else {
      KeptSelf(st);
      var s := if d.proxy.Some? then Unbind(st, ctx, del).value else st;
      if d.proxy.Some? {
        UnbindKept(st, ctx, del);
        KeptNamed(st, s);
      }
      AttachKept(s, ctx, del, d, proxy, p);
      KeptBoth(st, s, Attach(s, ctx, del, d, proxy, p).value);
    }
  }

  lemma AttachKept(st: Store, ctx: Context, del: Address, d: Delegator, proxy: Address, p: Delegator)
    requires ctx.Valid() && Named(st) && Attach(st, ctx, del, d, proxy, p).Some?
    ensures Kept(st, Attach(st, ctx, del, d, proxy, p).value)
  {
    hide Kept, UpdateShares, Named;
    var p' := p.(totalDelegated := p.totalDelegated + d.tokens);
    var st1 := SetDelegator(SetDelegator(st, del, d.(proxy := Some(proxy), isProxy := false)), proxy, p');
    WrittenKept(st, st1.(bindings := st1.bindings + {Binding(proxy, del)}), ctx, proxy, p'.totalDelegated + p'.tokens);
  }

  lemma RegisterKept(st: Store, ctx: Context, a: Address)
    requires ctx.Valid() && Named(st)
    ensures RegProxy(st, ctx, a).Some? ==> Kept(st, RegProxy(st, ctx, a).value)
    ensures UnregProxy(st, ctx, a).Some? ==> Kept(st, UnregProxy(st, ctx, a).value)
  {
    hide Kept, UpdateShares, Named, ClearProxy, BoundTo;
    if RegProxy(st, ctx, a).Some? {
      var d := st.delegators[a];
      WrittenKept(st, SetDelegator(st, a, d.(isProxy := true, proxy := None)), ctx, a, d.tokens);
    }
    if UnregProxy(st, ctx, a).Some? {
      var d := st.delegators[a].(isProxy := false, totalDelegated := 0);
      ClearedSame(st, a);
      WrittenKept(st, SetDelegator(ClearProxy(st, a), a, d), ctx, a, d.tokens);
    }
  }

  lemma ClearedSame(st: Store, a: Address)
    ensures ClearProxy(st, a).validators == st.validators && SetStays(st, ClearProxy(st, a))
  {
  }

  // ---------- The messages of validators ----------

  /** A validator's record after a message, but for its shares. */
  function RecordAfter(m: Message, a: Address, v: Validator): Validator {
    if m.del != a then v
    else
      match m
      case MsgDestroyValidator(_) => v.(minSelfDelegation := 0, jailed := true)
      case Jailing(_) => v.(jailed := true)
      case Unjailing(_) => v.(jailed := false)
      case _ => v
  }

  /** Destroying a bonded validator leaves it to be kicked out; no other message touches the
      validator set, its powers, the queue or that list. */
  ghost predicate Frames(st: Store, r: Store, m: Message) {
    && (forall a :: a in r.validators ==>
          if m.MsgCreateValidator? && a == m.del then r.validators[a] == Validator(a, false, Unbonded, ONE, m.msd, 0)
          else a in st.validators && Reshared(RecordAfter(m, a, st.validators[a]), r.validators[a]))
    && (forall a :: a in st.validators && a !in r.validators ==>
          var v := RecordAfter(m, a, st.validators[a]);
          v.status == Unbonded && v.minSelfDelegation == 0)
    && (m.MsgCreateValidator? ==> m.del in r.validators)
    && SetStays(st.(abandoned := st.abandoned + if m.MsgDestroyValidator? && IsBonded(st, m.del) then [m.del] else []), r)
  }

  lemma KeptFrames(st: Store, r: Store, m: Message)
    requires Kept(st, r)
    requires !m.MsgCreateValidator? && !m.MsgDestroyValidator? && !m.Jailing? && !m.Unjailing?
    ensures Frames(st, r, m) && (Tidy(st) ==> Tidy(r))
  {
    hide Spent;
    assert forall a :: a in st.validators ==> RecordAfter(m, a, st.validators[a]) == st.validators[a];
    assert st.abandoned + [] == st.abandoned;
  }

  lemma CreateFrames(st: Store, ctx: Context, a: Address, msd: nat)
    requires ctx.Valid() && CreateValidator(st, ctx, a, msd).Some?
    ensures
      var r := CreateValidator(st, ctx, a, msd).value;
      Frames(st, r, MsgCreateValidator(a, msd)) && (Tidy(st) ==> Tidy(r))
  {
    hide Power;
    assert st.abandoned + [] == st.abandoned;
  }

  lemma DestroyFrames(st: Store, ctx: Context, a: Address)
    requires ctx.Valid() && Named(st) && DestroyValidator(st, ctx, a).Some?
    ensures
      var r := DestroyValidator(st, ctx, a).value;
      Frames(st, r, MsgDestroyValidator(a)) && (Tidy(st) ==> Tidy(r))
  {
    hide Power, Unbond;
    var v := st.validators[a];
    UnbondSame(st, ctx, a, v.minSelfDelegation);
    assert st.abandoned + [] == st.abandoned;
  }

  lemma UnbondSame(st: Store, ctx: Context, a: Address, quantity: int)
    requires Unbond(st, ctx, a, quantity).Some?
    ensures
      var r := Unbond(st, ctx, a, quantity).value;
      r.validators == st.validators && SetStays(st, r)
  {
  }

  /** Jailing succeeds exactly on an unjailed validator.  Its record changes in being jailed, its
      key leaves the power index, and nothing else changes. */
  lemma JailExact(st: Store, ctx: Context, a: Address)
    requires ctx.Valid() && Inv(st, ctx)
    ensures Jail(st, ctx, a).Some? <==> a in st.validators && !st.validators[a].jailed
    ensures Jail(st, ctx, a).Some? ==> Jails(st, Jail(st, ctx, a).value, a, true)
    ensures Jail(st, ctx, a).Some? ==> forall k :: k in Jail(st, ctx, a).value.powerIndex <==> k in st.powerIndex && k.operator != a
  {
    hide RecordsOk, LastOk, QueueOk, AbandonedOk, SharesOk, DelegatorsOk, UndelegationsOk, PoolsOk;
    hide Power;
    if a in st.validators && !st.validators[a].jailed {
      OperatorOf(st, ctx, a);
      forall k
        ensures k in Jail(st, ctx, a).value.powerIndex <==> k in st.powerIndex && k.operator != a
      {
        assert k in st.powerIndex <==> Indexes(st, ctx, k);
      }
    }
  }

  /** Everything but the index is as before, up to whether a is jailed. */
  ghost predicate Jails(st: Store, r: Store, a: Address, jailed: bool)
    requires a in st.validators
  {
    r == st.(validators := st.validators[a := st.validators[a].(jailed := jailed)], powerIndex := r.powerIndex)
  }

  /** Unjailing succeeds exactly on a jailed validator.  Its record changes in not being jailed,
      the key of its shares comes into the power index, and nothing else changes. */
  lemma UnjailExact(st: Store, ctx: Context, a: Address)
    requires ctx.Valid() && Inv(st, ctx)
    ensures Unjail(st, ctx, a).Some? <==> a in st.validators && st.validators[a].jailed
    ensures Unjail(st, ctx, a).Some? ==> Jails(st, Unjail(st, ctx, a).value, a, false)
    ensures Unjail(st, ctx, a).Some? ==>
              && (forall k :: k in Unjail(st, ctx, a).value.powerIndex <==>
                    k in st.powerIndex || k == PowerKey(Power(ctx, st.validators[a].shares), a))
              && (forall k :: k in st.powerIndex ==> k.operator != a)
  {
    hide RecordsOk, LastOk, QueueOk, AbandonedOk, SharesOk, DelegatorsOk, UndelegationsOk, PoolsOk;
    hide Power;
    if a in st.validators && st.validators[a].jailed {
      OperatorOf(st, ctx, a);
      forall k | k in st.powerIndex
        ensures k.operator != a
      {
        assert Indexes(st, ctx, k);
      }
    }
  }

  /** A jailed validator is neither elected nor promoted. */
  lemma JailedStaysOut(st: Store, ctx: Context, endOfEpoch: bool, a: Address)
    requires ctx.Valid() && Inv(st, ctx) && a in st.validators && st.validators[a].jailed
    ensures a !in Elected(st, ctx) && a !in Promoted(st, ctx)
    ensures
      var r := EndBlock(st, ctx, endOfEpoch);
      r.Ok? && (IsBonded(r.value.0, a) <==> !endOfEpoch && IsBonded(st, a) && a !in st.abandoned)
  {
    hide Inv, EndBlock, Elected, Promoted, Ends, PaysDue, Applied, ExactDiff, IsBonded;
    ElectedEligible(st, ctx, a);
    EndBlockKeeps(st, ctx, endOfEpoch);
  }

  lemma ElectedEligible(st: Store, ctx: Context, a: Address)
    requires ctx.Valid()
    ensures a in Elected(st, ctx) || a in Promoted(st, ctx) ==> Eligible(st, ctx, a)
  {
    TakenEligible(st, ctx, Ranking(st), {}, ctx.maxValidators, a);
    TakenEligible(st, ctx, Ranking(st), st.lastPowers.Keys, |st.abandoned|, a);
  }

  // ---------- Every message ----------

  lemma InvNamed(st: Store, ctx: Context)
    requires ctx.Valid() && Inv(st, ctx)
    ensures Named(st)
  {
    hide Inv;
    forall a | a in st.validators
      ensures st.validators[a].operator == a
    {
      OperatorOf(st, ctx, a);
    }
  }

  lemma HandledFrames(st: Store, ctx: Context, m: Message)
    requires ctx.Valid() && Inv(st, ctx) && Handle(st, ctx, m).Some?
    ensures
      var r := Handle(st, ctx, m).value;
      Frames(st, r, m) && (Tidy(st) ==> Tidy(r))
  {
    hide Inv, Kept, Frames, Tidy, Deposit, Withdraw, AddShares, Bind, Unbind, RegProxy, UnregProxy, CreateValidator,
      DestroyValidator, Jail, Unjail, Named;
    InvNamed(st, ctx);
    match m {
      case MsgDeposit(a, amount) => DepositKept(st, ctx, a, amount);
      case MsgWithdraw(a, amount) => WithdrawKept(st, ctx, a, amount);
      case MsgAddShares(a, targets) => AddSharesKept(st, ctx, a, targets);
      case MsgBindProxy(a, proxy) => BindKept(st, ctx, a, proxy);
      case MsgUnbindProxy(a) => UnbindKept(st, ctx, a);
      case MsgRegProxy(a, reg) => RegisterKept(st, ctx, a);
      case MsgCreateValidator(a, msd) => CreateFrames(st, ctx, a, msd);
      case MsgDestroyValidator(a) => DestroyFrames(st, ctx, a);
      case Jailing(a) => JailExact(st, ctx, a); JailsFrames(st, Handle(st, ctx, m).value, m);
      case Unjailing(a) => UnjailExact(st, ctx, a); JailsFrames(st, Handle(st, ctx, m).value, m);
    }
    if !m.MsgCreateValidator? && !m.MsgDestroyValidator? && !m.Jailing? && !m.Unjailing? {
      KeptFrames(st, Handle(st, ctx, m).value, m);
    }
  }

  lemma JailsFrames(st: Store, r: Store, m: Message)
    requires (m.Jailing? || m.Unjailing?) && m.del in st.validators && Jails(st, r, m.del, m.Jailing?)
    ensures Frames(st, r, m) && (Tidy(st) ==> Tidy(r))
  {
    assert st.abandoned + [] == st.abandoned;
  }

  /** Whether a validator is unbonded, without a self delegation and without a delegator's shares. */
  predicate Idle(st: Store, v: Validator, a: Address) {
    v.status == Unbonded && v.minSelfDelegation == 0 && Unclaimed(st, a)
  }

  /** What every message does to the validators.  A record changes in its shares alone, but for
      the one destroyed, jailed or unjailed; a validator goes exactly when it is unbonded and
      neither a self delegation nor a delegator's shares are left on it. */
  lemma MessageFrame(st: Store, ctx: Context, m: Message)
    requires ctx.Valid() && Inv(st, ctx) && Tidy(st) && Sound(st, m) && Handle(st, ctx, m).Some?
    ensures
      var r := Handle(st, ctx, m).value;
      && Frames(st, r, m) && Tidy(r)
      && (forall a :: a in st.validators ==> (a in r.validators <==> !Idle(r, RecordAfter(m, a, st.validators[a]), a)))
  {
    hide Inv, Tidy, Handle, Unclaimed, RemovesIdle, Sound;
    var r := Handle(st, ctx, m).value;
    HandledFrames(st, ctx, m);
    MessageKeeps(st, ctx, m);
    MessageIdle(st, ctx, m);
    forall a | a in st.validators
      ensures a in r.validators <==> !Idle(r, RecordAfter(m, a, st.validators[a]), a)
    {
      if a in r.validators {
        CreatedNew(st, ctx, m);
        NeverIdle(r, ctx, a);
      } else {
        GoneIdle(st, r, a);
      }
    }
  }

  lemma CreatedNew(st: Store, ctx: Context, m: Message)
    requires ctx.Valid() && Handle(st, ctx, m).Some?
    ensures m.MsgCreateValidator? ==> m.del !in st.validators
  {
    hide Deposit, Withdraw, AddShares, Bind, Unbind, RegProxy, UnregProxy, DestroyValidator, Jail, Unjail, Power, Reweigh;
  }

  lemma GoneIdle(st: Store, r: Store, a: Address)
    requires RemovesIdle(st, r) && a in st.validators && a !in r.validators
    ensures Unclaimed(r, a)
  {
  }

  lemma NeverIdle(st: Store, ctx: Context, a: Address)
    requires ctx.Valid() && Inv(st, ctx) && Tidy(st) && a in st.validators
    ensures !Idle(st, st.validators[a], a)
  {
    hide ValidatorsOk, DelegatorsOk, PoolsOk, UndelegationsOk, ShareSum, ListsOk;
    ValidatorsOf(st, ctx);
    RecordOf(st, ctx, a);
    assert SharesAt(st, a);
    assert !Spent(st.validators[a]);
    if Idle(st, st.validators[a], a) {
      UnclaimedSum(st, a);
    }
  }

  lemma RecordOf(st: Store, ctx: Context, a: Address)
    requires ctx.Valid() && ValidatorsOk(st, ctx) && a in st.validators
    ensures RecordOk(st.validators[a], a)
  {
    hide IndexOk, LastOk, QueueOk, AbandonedOk;
  }

  lemma UnclaimedSum(st: Store, a: Address)
    requires EntriesOk(st) && Unclaimed(st, a)
    ensures ShareSum(st.shares, a) == 0
  {
    var e := Entries(st.shares, a);
    forall k | k in e
      ensures e[k] == 0
    {
      assert ShareAt(st.shares, k) == Recorded(st, k);
    }
    SumZeros(e, map[]);
  }

  // ---------- Every run ----------

  lemma EndBlockTidy(st: Store, ctx: Context, endOfEpoch: bool)
    requires ctx.Valid() && Inv(st, ctx) && Tidy(st)
    ensures EndBlock(st, ctx, endOfEpoch).Ok? && Tidy(EndBlock(st, ctx, endOfEpoch).value.0)
  {
    hide Inv, EndBlock, Elected, Promoted, PaysDue, Applied, ExactDiff, IsBonded, Seats, Sum;
    EndBlockKeeps(st, ctx, endOfEpoch);
    var r := EndBlock(st, ctx, endOfEpoch).value.0;
    forall a | a in r.validators
      ensures !Spent(r.validators[a])
    {
      assert r.validators[a] == Ended(st, ctx, endOfEpoch, a);
    }
  }

  /** No record is ever kept for nothing. */
  lemma {:induction false} RunTidy(st: Store, steps: seq<Step>, ctx: Context)
    requires ctx.Valid() && Inv(st, ctx) && Tidy(st) && AllowedRun(st, steps, ctx.powerReduction)
    requires forall i :: 0 <= i < |steps| ==> steps[i].ctx.Valid()
    ensures Run(st, steps).Ok? && Tidy(Run(st, steps).value)
    decreases |steps|
  {
    hide Inv, Tidy, Handle, EndBlock, Sound;
    if steps != [] {
      InvContext(st, ctx, steps[0].ctx);
      StepKeeps(st, steps[0]);
      StepTidy(st, steps[0]);
      InvContext(Do(st, steps[0]).value, steps[0].ctx, ctx);
      RunTidy(Do(st, steps[0]).value, steps[1..], ctx);
    }
  }

  lemma StepTidy(st: Store, step: Step)
    requires step.ctx.Valid() && Inv(st, step.ctx) && Tidy(st)
    ensures Do(st, step).Ok? ==> Tidy(Do(st, step).value)
  {
    hide Inv, Tidy, Handle, EndBlock;
    match step
    case Deliver(ctx, m) =>
      if Handle(st, ctx, m).Some? {
        HandledFrames(st, ctx, m);
      }
    case EndOfBlock(ctx, endOfEpoch) => EndBlockTidy(st, ctx, endOfEpoch);
  }

  lemma GenesisTidy(balances: map<Address, int>)
    ensures Tidy(Genesis(balances))
  {
  }
}
