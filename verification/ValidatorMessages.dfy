/** Creating, destroying, jailing and unjailing validators. */
module ValidatorMessages {
  import opened EvmTypes
  import opened Coins
  import opened Sums
  import opened StakingStore
  import opened StakingInvariants
  import opened ShareUpdates
  import opened ShareMoves
  import opened Proxies
  import opened StakingMessages
  import opened DelegatorMessages

  // ---------- One record changes ----------

  /** A record is replaced by one with the same status; sets and queues stay. */
  ghost predicate Rewrites(st: Store, r: Store, v: Validator) {
    && r.validators == st.validators[v.operator := v]
    && r.lastPowers == st.lastPowers && r.lastTotal == st.lastTotal && r.queue == st.queue
    && (v.operator in st.validators ==>
          v.status == st.validators[v.operator].status && v.unbondingTime == st.validators[v.operator].unbondingTime)
    && (v.operator !in st.validators ==> v.status == Unbonded)
  }

  lemma RewritesKeeps(st: Store, r: Store, v: Validator)
    requires RecordsOk(st) && LastOk(st) && QueueOk(st) && Rewrites(st, r, v) && RecordOk(v, v.operator)
    ensures RecordsOk(r) && LastOk(r) && QueueOk(r)
  {
    hide Sum, QueueOk;
    RewritesQueue(st, r, v);
  }

  lemma RewritesQueue(st: Store, r: Store, v: Validator)
    requires QueueOk(st) && Rewrites(st, r, v)
    ensures QueueOk(r)
  {
    forall t, a | t in r.queue && a in r.queue[t]
      ensures Queued(r, t, a)
    {
      assert Queued(st, t, a);
    }
  }

  lemma RewritesAbandoned(st: Store, r: Store, v: Validator)
    requires AbandonedOk(st) && r.validators == st.validators[v.operator := v] && r.abandoned == st.abandoned
    requires v.operator in st.validators ==>
               v.status == st.validators[v.operator].status && v.minSelfDelegation == st.validators[v.operator].minSelfDelegation
    ensures AbandonedOk(r)
  {
    forall a | a in r.abandoned
      ensures Abandons(r, a)
    {
      assert Abandons(st, a);
    }
  }

  /** The power index follows when the old key goes and the new one comes. */
  lemma RewritesIndex(st: Store, r: Store, ctx: Context, v: Validator)
    requires ctx.Valid() && IndexOk(st, ctx) && r.validators == st.validators[v.operator := v]
    requires
      var gone := if v.operator in st.validators then {KeyOf(ctx, st.validators[v.operator])} else {};
      var come := if v.jailed then {} else {KeyOf(ctx, v)};
      r.powerIndex == st.powerIndex - gone + come
    requires v.operator in st.validators ==> st.validators[v.operator].operator == v.operator
    ensures IndexOk(r, ctx)
  {
    hide Power;
    forall k
      ensures k in r.powerIndex <==> Indexes(r, ctx, k)
    {
      assert k in st.powerIndex <==> Indexes(st, ctx, k);
    }
  }

  /** The share invariant when a record's own share and its total change together. */
  lemma RewritesShares(st: Store, r: Store, v: Validator)
    requires SharesOk(st) && r.validators == st.validators[v.operator := v]
    requires r.shares == st.shares && r.delegators == st.delegators
    requires v.shares - SelfShare(v) ==
             if v.operator in st.validators then st.validators[v.operator].shares - SelfShare(st.validators[v.operator]) else 0
    requires v.operator !in st.validators ==> Unclaimed(st, v.operator)
    ensures SharesOk(r)
  {
    hide ShareSum;
    assert v.operator in st.validators ==> SharesAt(st, v.operator);
    if v.operator !in st.validators {
      Entryless(st, v.operator);
    }
    forall a | a in r.validators
      ensures SharesAt(r, a)
    {
      assert a in st.validators ==> SharesAt(st, a);
    }
    forall k
      ensures ShareAt(r.shares, k) == Recorded(r, k)
    {
      assert ShareAt(st.shares, k) == Recorded(st, k);
    }
  }

  lemma Entryless(st: Store, a: Address)
    requires SharesOk(st) && a !in st.validators
    ensures ShareSum(st.shares, a) == 0
  {
    hide ShareTotalsOk, ListOk, Sum;
    var e := Entries(st.shares, a);
    forall k | k in e
      ensures e[k] == 0
    {
      assert ShareAt(st.shares, k) == Recorded(st, k);
    }
    SumZeros(e, map[]);
    SumEmpty<ShareKey>();
  }

  lemma SelfDelegationsUpdate(vs: map<Address, Validator>, a: Address, v: Validator)
    ensures Sum(SelfDelegations(vs[a := v])) ==
            Sum(SelfDelegations(vs)) + v.minSelfDelegation - if a in vs then vs[a].minSelfDelegation else 0
  {
    SumUpdate(SelfDelegations(vs), a, v.minSelfDelegation as int);
    assert SelfDelegations(vs[a := v]) == SelfDelegations(vs)[a := v.minSelfDelegation as int];
  }

  lemma SelfDelegationsRemove(vs: map<Address, Validator>, a: Address)
    ensures Sum(SelfDelegations(vs - {a})) ==
            Sum(SelfDelegations(vs)) - if a in vs then vs[a].minSelfDelegation else 0
  {
    SumRemove(SelfDelegations(vs), a);
    assert SelfDelegations(vs - {a}) == SelfDelegations(vs) - {a};
  }

  // ---------- Create ----------

  /** MsgCreateValidator keeps the invariant exactly when no delegator with shares still lists
      the address, that is when no earlier validator there was removed with shares forgotten. */
  lemma CreateKeeps(st: Store, ctx: Context, a: Address, msd: nat)
    requires ctx.Valid() && Inv(st, ctx) && CreateValidator(st, ctx, a, msd).Some?
    ensures Inv(CreateValidator(st, ctx, a, msd).value, ctx) <==> Unclaimed(st, a)
    ensures a !in st.validators && CreateValidator(st, ctx, a, msd).value.validators ==
            st.validators[a := Validator(a, false, Unbonded, ONE, msd, 0)]
    ensures PoolsOk(CreateValidator(st, ctx, a, msd).value)
  {
    hide RecordsOk, IndexOk, LastOk, QueueOk, AbandonedOk, SharesOk, DelegatorsOk, UndelegationsOk, Sum, Tokens,
      SelfDelegations, Quantities, Power, Unclaimed;
    var r := CreateValidator(st, ctx, a, msd).value;
    var v := Validator(a, false, Unbonded, ONE, msd, 0);
    assert r.validators == st.validators[a := v];
    SelfDelegationsUpdate(st.validators, a, v);
    if Unclaimed(st, a) {
      RewritesKeeps(st, r, v);
      RewritesAbandoned(st, r, v);
      CreatedIndex(st, ctx, a, msd);
      RewritesIndex(st, r, ctx, v);
      RewritesShares(st, r, v);
      UnbondBooks(st, r);
      ResharesUndelegations(st, r);
    } else {
      ClaimBreaks(st, r, a);
    }
  }

  lemma ClaimBreaks(st: Store, r: Store, a: Address)
    requires SharesOk(st) && a !in st.validators && a in r.validators && !Unclaimed(st, a)
    requires r.shares == st.shares && r.delegators == st.delegators
    ensures !SharesOk(r)
  {
    hide ShareTotalsOk;
    var d :| d in st.delegators && a in st.delegators[d].validators && st.delegators[d].shares != 0;
    var k := ShareKey(a, d);
    assert ShareAt(st.shares, k) == Recorded(st, k);
    assert ShareAt(r.shares, k) != Recorded(r, k);
  }

  lemma CreatedIndex(st: Store, ctx: Context, a: Address, msd: nat)
    requires ctx.Valid() && IndexOk(st, ctx) && CreateValidator(st, ctx, a, msd).Some?
    ensures CreateValidator(st, ctx, a, msd).value.powerIndex ==
            st.powerIndex + {KeyOf(ctx, Validator(a, false, Unbonded, ONE, msd, 0))}
  {
    hide Power;
    var zero := KeyOf(ctx, Validator(a, false, Unbonded, 0, msd, 0));
    assert zero in st.powerIndex <==> Indexes(st, ctx, zero);
  }

  // ---------- Jail ----------

  lemma JailKeeps(st: Store, ctx: Context, a: Address)
    requires ctx.Valid() && Inv(st, ctx) && Jail(st, ctx, a).Some?
    ensures Inv(Jail(st, ctx, a).value, ctx)
    ensures StatusKept(st.validators, Jail(st, ctx, a).value.validators)
  {
    hide IndexOk, LastOk, QueueOk, AbandonedOk, SharesOk, DelegatorsOk, UndelegationsOk, Sum, Tokens,
      SelfDelegations, Quantities, Power;
    var r := Jail(st, ctx, a).value;
    var v := st.validators[a].(jailed := true);
    assert RecordOk(st.validators[a], a);
    RewritesKeeps(st, r, v);
    RewritesAbandoned(st, r, v);
    RewritesIndex(st, r, ctx, v);
    RewritesShares(st, r, v);
    SelfDelegationsUpdate(st.validators, a, v);
    UnbondBooks(st, r);
    ResharesUndelegations(st, r);
  }

  /** Unjailing keeps the invariant exactly on a validator that still has a self delegation. */
  lemma UnjailKeeps(st: Store, ctx: Context, a: Address)
    requires ctx.Valid() && Inv(st, ctx) && Unjail(st, ctx, a).Some?
    ensures a in st.validators
    ensures Inv(Unjail(st, ctx, a).value, ctx) <==> st.validators[a].minSelfDelegation != 0
    ensures ShareTotalsOk(Unjail(st, ctx, a).value) <==> st.validators[a].minSelfDelegation != 0
    ensures StatusKept(st.validators, Unjail(st, ctx, a).value.validators)
    ensures PoolsOk(Unjail(st, ctx, a).value)
  {
    hide Inv, ShareTotalsOk, SharesOk, StatusKept, Unjail, PoolsOk;
    var r := Unjail(st, ctx, a).value;
    UnjailRecord(st, ctx, a);
    UnjailPools(st, ctx, a);
    if st.validators[a].minSelfDelegation != 0 {
      UnjailKeepsLive(st, ctx, a);
      InvTotals(r, ctx);
    } else {
      InvTotals(st, ctx);
      UnjailBreaks(st, ctx, a);
      if Inv(r, ctx) {
        InvTotals(r, ctx);
        assert false;
      }
    }
  }

  lemma UnjailPools(st: Store, ctx: Context, a: Address)
    requires ctx.Valid() && Inv(st, ctx) && Unjail(st, ctx, a).Some?
    ensures PoolsOk(Unjail(st, ctx, a).value)
  {
    hide ValidatorsOk, SharesOk, DelegatorsOk, UndelegationsOk, Sum, Tokens, SelfDelegations, Quantities, Power;
    OperatorOf(st, ctx, a);
    SelfDelegationsUpdate(st.validators, a, st.validators[a].(jailed := false));
  }

  lemma UnjailRecord(st: Store, ctx: Context, a: Address)
    requires ctx.Valid() && Inv(st, ctx) && Unjail(st, ctx, a).Some?
    ensures a in st.validators && StatusKept(st.validators, Unjail(st, ctx, a).value.validators)
  {
    hide Inv, Power;
    OperatorOf(st, ctx, a);
  }

  lemma UnjailBreaks(st: Store, ctx: Context, a: Address)
    requires ctx.Valid() && ShareTotalsOk(st) && Inv(st, ctx) && Unjail(st, ctx, a).Some? && st.validators[a].minSelfDelegation == 0
    ensures !ShareTotalsOk(Unjail(st, ctx, a).value)
  {
    hide Inv, ShareSum, Power;
    OperatorOf(st, ctx, a);
    assert SharesAt(st, a);
    assert !SharesAt(Unjail(st, ctx, a).value, a);
  }

  lemma UnjailKeepsLive(st: Store, ctx: Context, a: Address)
    requires ctx.Valid() && Inv(st, ctx) && Unjail(st, ctx, a).Some? && st.validators[a].minSelfDelegation != 0
    ensures Inv(Unjail(st, ctx, a).value, ctx)
  {
    hide IndexOk, LastOk, QueueOk, AbandonedOk, SharesOk, DelegatorsOk, UndelegationsOk, Sum, Tokens,
      SelfDelegations, Quantities, Power;
    var r := Unjail(st, ctx, a).value;
    var v := st.validators[a].(jailed := false);
    assert RecordOk(st.validators[a], a);
    RewritesKeeps(st, r, v);
    RewritesAbandoned(st, r, v);
    UnjailedIndex(st, ctx, a);
    RewritesIndex(st, r, ctx, v);
    RewritesShares(st, r, v);
    SelfDelegationsUpdate(st.validators, a, v);
    UnbondBooks(st, r);
    ResharesUndelegations(st, r);
  }

  lemma UnjailedIndex(st: Store, ctx: Context, a: Address)
    requires ctx.Valid() && IndexOk(st, ctx) && a in st.validators && st.validators[a].jailed
    requires RecordOk(st.validators[a], a)
    ensures KeyOf(ctx, st.validators[a]) !in st.powerIndex
  {
    var k := KeyOf(ctx, st.validators[a]);
    assert k in st.powerIndex <==> Indexes(st, ctx, k);
  }

  // ---------- Destroy ----------

  /** Removing a validator without entries. */
  lemma RemovedShares(st: Store, r: Store, a: Address)
    requires SharesOk(st) && a in st.validators && ShareSum(st.shares, a) == 0
    requires r.validators == st.validators - {a} && r.shares == st.shares && r.delegators == st.delegators
    ensures SharesOk(r)
  {
    hide ShareSum;
    SharesHoused(st);
    forall b | b in r.validators
      ensures SharesAt(r, b)
    {
      assert SharesAt(st, b);
    }
    forall k
      ensures ShareAt(r.shares, k) == Recorded(r, k)
    {
      assert ShareAt(st.shares, k) == Recorded(st, k);
      assert Housed(st) ==> ShareAt(st.shares, k) >= 0;
      NoEntries(st.shares, a, k);
    }
  }

  /** Removing an unbonded validator and its index key. */
  lemma RemovedKeeps(st: Store, ctx: Context, a: Address)
    requires ctx.Valid() && ValidatorsOk(st, ctx) && a in st.validators && st.validators[a].status == Unbonded
    ensures ValidatorsOk(RemoveValidator(st, ctx, a), ctx)
  {
    hide Sum, Power;
    var r := RemoveValidator(st, ctx, a);
    assert RecordOk(st.validators[a], a);
    forall k
      ensures k in r.powerIndex <==> Indexes(r, ctx, k)
    {
      assert k in st.powerIndex <==> Indexes(st, ctx, k);
    }
    forall t, b | t in r.queue && b in r.queue[t]
      ensures Queued(r, t, b)
    {
      assert Queued(st, t, b);
    }
    forall b | b in r.abandoned
      ensures Abandons(r, b)
    {
      assert Abandons(st, b);
    }
  }

  lemma DismissedRemoves(st: Store, ctx: Context, a: Address)
    requires ctx.Valid() && Inv(st, ctx) && a in st.validators && st.validators[a].minSelfDelegation != 0
    requires st.validators[a].status == Unbonded && st.validators[a].shares == ONE
    ensures Releasing(RemoveValidator(st, ctx, a), ctx, st.validators[a].minSelfDelegation)
  {
    hide ValidatorsOk, SharesOk, DelegatorsOk, UndelegationsOk, Sum, Tokens, SelfDelegations, Quantities, Power, ShareSum;
    var r := RemoveValidator(st, ctx, a);
    RemovedKeeps(st, ctx, a);
    TotalOf(st, a);
    RemovedShares(st, r, a);
    SelfDelegationsRemove(st.validators, a);
    UnbondBooks(st, r);
    ResharesUndelegations(st, r);
  }

  lemma TotalOf(st: Store, a: Address)
    requires SharesOk(st) && a in st.validators
    ensures st.validators[a].shares == ShareSum(st.shares, a) + SelfShare(st.validators[a])
    ensures ShareSum(st.shares, a) >= 0
  {
    hide EntriesOk, ListOk;
    assert SharesAt(st, a);
    SharesHoused(st);
    SumNonNegative(Entries(st.shares, a));
  }

  lemma DismissedAbandoned(st: Store, r: Store, v: Validator)
    requires AbandonedOk(st) && v.operator in st.validators && st.validators[v.operator].minSelfDelegation != 0
    requires r.validators == st.validators[v.operator := v] && v.status == st.validators[v.operator].status
    requires v.minSelfDelegation == 0
    requires r.abandoned == if v.status == Bonded then st.abandoned + [v.operator] else st.abandoned
    ensures AbandonedOk(r)
  {
    assert v.operator in st.abandoned ==> Abandons(st, v.operator);
    assert v.operator !in st.abandoned;
    forall a | a in r.abandoned
      ensures Abandons(r, a)
    {
      assert a in st.abandoned ==> Abandons(st, a);
    }
  }

  lemma DismissedStays(st: Store, ctx: Context, a: Address)
    requires ctx.Valid() && Inv(st, ctx) && a in st.validators && st.validators[a].minSelfDelegation != 0
    requires !(st.validators[a].status == Unbonded && st.validators[a].shares == ONE)
    ensures Releasing(Dismiss(st, ctx, st.validators[a], st.validators[a].shares - ONE), ctx, st.validators[a].minSelfDelegation)
  {
    hide IndexOk, LastOk, QueueOk, AbandonedOk, SharesOk, DelegatorsOk, UndelegationsOk, Sum, Tokens,
      SelfDelegations, Quantities, Power;
    var r := Dismiss(st, ctx, st.validators[a], st.validators[a].shares - ONE);
    assert RecordOk(st.validators[a], a);
    var v := st.validators[a].(minSelfDelegation := 0, jailed := true, shares := st.validators[a].shares - ONE);
    RewritesKeeps(st, r, v);
    DismissedAbandoned(st, r, v);
    RewritesIndex(st, r, ctx, v);
    RewritesShares(st, r, v);
    SelfDelegationsUpdate(st.validators, a, v);
    UnbondBooks(st, r);
    ResharesUndelegations(st, r);
  }

  /** MsgDestroyValidator keeps the invariant; it fails exactly when there is no self delegation
      to withdraw, never for lack of shares or of coins in the pool. */
  lemma DestroyKeeps(st: Store, ctx: Context, a: Address)
    requires ctx.Valid() && Inv(st, ctx)
    ensures
      var r := DestroyValidator(st, ctx, a);
      && (r.Some? <==> a in st.validators && st.validators[a].minSelfDelegation != 0)
      && (r.Some? ==> Inv(r.value, ctx) && StatusKept(st.validators, r.value.validators))
  {
    hide Inv, Releasing, SharesOk, StatusKept, Dismiss, Unbond;
    if a in st.validators && st.validators[a].minSelfDelegation != 0 {
      var v := st.validators[a];
      SharesOf(st, ctx);
      TotalOf(st, a);
      OperatorOf(st, ctx, a);
      if v.status == Unbonded && v.shares == ONE {
        DismissedRemoves(st, ctx, a);
        DismissRemoves(st, ctx, v);
      } else {
        DismissedStays(st, ctx, a);
      }
      UnbondKeeps(Dismiss(st, ctx, v, v.shares - ONE), ctx, a, v.minSelfDelegation);
      DismissCommutes(st, ctx, v, v.shares - ONE, a);
      DismissStatus(st, ctx, v, v.shares - ONE);
    }
  }

  lemma DismissRemoves(st: Store, ctx: Context, v: Validator)
    requires ctx.Valid() && v.status == Unbonded
    ensures Dismiss(st, ctx, v, 0) == RemoveValidator(st, ctx, v.operator)
  {
  }

  lemma DismissStatus(st: Store, ctx: Context, v: Validator, remain: int)
    requires ctx.Valid() && v.operator in st.validators && st.validators[v.operator] == v
    ensures StatusKept(st.validators, Dismiss(st, ctx, v, remain).validators)
  {
    hide Power, StatusKept;
    StatusRemoved(st.validators, v.operator);
    StatusSet(st.validators, v.(minSelfDelegation := 0, jailed := true, shares := remain));
  }

  lemma StatusRemoved(vs: map<Address, Validator>, a: Address)
    ensures StatusKept(vs, vs - {a})
  {
  }

  lemma StatusSet(vs: map<Address, Validator>, v: Validator)
    requires v.operator in vs && vs[v.operator].status == v.status && vs[v.operator].unbondingTime == v.unbondingTime
    ensures StatusKept(vs, vs[v.operator := v])
  {
  }

  lemma SharesOf(st: Store, ctx: Context)
    requires ctx.Valid() && Inv(st, ctx)
    ensures SharesOk(st)
  {
    hide ValidatorsOk, SharesOk, DelegatorsOk, UndelegationsOk, PoolsOk;
  }

  lemma OperatorOf(st: Store, ctx: Context, a: Address)
    requires ctx.Valid() && Inv(st, ctx) && a in st.validators
    ensures RecordOk(st.validators[a], a)
  {
    hide IndexOk, LastOk, QueueOk, AbandonedOk, SharesOk, DelegatorsOk, UndelegationsOk, PoolsOk;
  }

  /** Dismissing reads and writes records, power index and abandoned list only. */
  lemma DismissFrame(st: Store, x: Store, ctx: Context, v: Validator, remain: int)
    requires ctx.Valid() && x.validators == st.validators && x.powerIndex == st.powerIndex && x.abandoned == st.abandoned
    ensures
      var y := Dismiss(st, ctx, v, remain);
      Dismiss(x, ctx, v, remain) == x.(validators := y.validators, powerIndex := y.powerIndex, abandoned := y.abandoned)
  {
    hide KeyOf;
  }

  /** The record and the undelegation are written independently. */
  lemma DismissCommutes(st: Store, ctx: Context, v: Validator, remain: int, a: Address)
    requires ctx.Valid()
    ensures
      var x := Unbond(st, ctx, a, v.minSelfDelegation);
      var y := Unbond(Dismiss(st, ctx, v, remain), ctx, a, v.minSelfDelegation);
      && (x.Some? <==> y.Some?)
      && (x.Some? ==> Dismiss(x.value, ctx, v, remain) == y.value)
  {
    hide Dismiss;
    DismissFrame(st, st, ctx, v, remain);
    var x := Unbond(st, ctx, a, v.minSelfDelegation);
    if x.Some? {
      DismissFrame(st, x.value, ctx, v, remain);
    }
  }
}
