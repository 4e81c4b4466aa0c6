/** The loops that move a delegator's shares keep the share and index invariants although they
    work on validator records read before the first write. */
module ShareUpdates {
  import opened EvmTypes
  import opened Coins
  import opened Sums
  import opened StakingStore
  import opened StakingInvariants

  /** The part of the invariant that holds between the steps of a share loop. */
  ghost predicate Steady(st: Store, ctx: Context)
    requires ctx.Valid()
  {
    RecordsOk(st) && IndexOk(st, ctx) && ShareTotalsOk(st)
  }

  /** The records are those in the store, and no two have the same operator. */
  ghost predicate Current(st: Store, vals: seq<Validator>) {
    && (forall i :: 0 <= i < |vals| ==>
          vals[i].operator in st.validators && st.validators[vals[i].operator] == vals[i])
    && (forall i, j :: 0 <= i < j < |vals| ==> vals[i].operator != vals[j].operator)
  }

  ghost predicate Has(vals: seq<Validator>, a: Address) {
    exists i :: 0 <= i < |vals| && vals[i].operator == a
  }

  ghost predicate SomeDestroyed(vals: seq<Validator>) {
    exists i :: 0 <= i < |vals| && vals[i].minSelfDelegation == 0
  }

  lemma HasFirst(vals: seq<Validator>, a: Address)
    requires vals != []
    ensures Has(vals, a) <==> a == vals[0].operator || Has(vals[1..], a)
  {
    if Has(vals, a) {
      var i :| 0 <= i < |vals| && vals[i].operator == a;
      if i > 0 {
        assert vals[1..][i - 1].operator == a;
      }
    }
    if Has(vals[1..], a) {
      var i :| 0 <= i < |vals[1..]| && vals[1..][i].operator == a;
      assert vals[i + 1].operator == a;
    }
  }

  /** Exactly the listed validators that exist are read, each once. */
  lemma {:induction false} ExistingMeans(st: Store, vs: seq<Address>)
    requires RecordsOk(st) && NoRepeats(vs)
    ensures Current(st, Existing(st, vs))
    ensures forall a :: Has(Existing(st, vs), a) <==> a in vs && a in st.validators
  {
    if vs == [] {
      assert Existing(st, vs) == [];
    } else {
      TailDistinct(vs);
      ExistingMeans(st, vs[1..]);
      var rest := Existing(st, vs[1..]);
      assert forall a :: a in vs <==> a == vs[0] || a in vs[1..];
      if vs[0] in st.validators {
        var vals := [st.validators[vs[0]]] + rest;
        assert RecordOk(st.validators[vs[0]], vs[0]);
        assert vals[1..] == rest;
        CurrentFirst(st, st.validators[vs[0]], rest);
        forall a
          ensures Has(vals, a) <==> a in vs && a in st.validators
        {
          HasFirst(vals, a);
        }
      }
    }
  }

  lemma TailDistinct(s: seq<Address>)
    requires NoRepeats(s) && s != []
    ensures NoRepeats(s[1..]) && s[0] !in s[1..]
  {
  }

  lemma CurrentFirst(st: Store, v: Validator, rest: seq<Validator>)
    requires Current(st, rest) && !Has(rest, v.operator) && v.operator in st.validators && st.validators[v.operator] == v
    ensures Current(st, [v] + rest)
  {
  }

  /** Changing one validator's entries and its shares by the same amount. */
  lemma ReweighSteady(st: Store, ctx: Context, v: Validator, shares: int, entries: map<ShareKey, int>)
    requires ctx.Valid() && Steady(st, ctx)
    requires v.operator in st.validators && st.validators[v.operator] == v
    requires forall a :: a != v.operator ==> ShareSum(entries, a) == ShareSum(st.shares, a)
    requires shares - v.shares == ShareSum(entries, v.operator) - ShareSum(st.shares, v.operator)
    ensures
      var r := Reweigh(st.(shares := entries), ctx, v, shares);
      && Steady(r, ctx) && Reshares(st, r) && r.shares == entries && r.delegators == st.delegators
      && r.validators == st.validators[v.operator := v.(shares := shares)]
  {
    hide ShareSum;
    var r := Reweigh(st.(shares := entries), ctx, v, shares);
    ReweighIndex(st.(shares := entries), ctx, v, shares);
    assert SharesAt(st, v.operator);
    forall a | a in r.validators
      ensures SharesAt(r, a)
    {
      assert SharesAt(st, a);
    }
  }

  lemma ReweighIndex(st: Store, ctx: Context, v: Validator, shares: int)
    requires ctx.Valid() && RecordsOk(st) && IndexOk(st, ctx)
    requires v.operator in st.validators && st.validators[v.operator] == v
    ensures RecordsOk(Reweigh(st, ctx, v, shares)) && IndexOk(Reweigh(st, ctx, v, shares), ctx)
  {
    hide Power;
    var r := Reweigh(st, ctx, v, shares);
    forall k
      ensures k in r.powerIndex <==> Indexes(r, ctx, k)
    {
      assert k in st.powerIndex <==> Indexes(st, ctx, k);
    }
  }

  // ---------- UpdateShares ----------

  /** The delegator has x on each of the validators. */
  ghost predicate HoldsAll(shares: map<ShareKey, int>, vals: seq<Validator>, del: Address, x: int) {
    forall i :: 0 <= i < |vals| ==> ShareAt(shares, ShareKey(vals[i].operator, del)) == x
  }

  /** The entries after the delegator's on each of the validators have become x. */
  ghost predicate Given(shares: map<ShareKey, int>, vals: seq<Validator>, del: Address, x: int, r: map<ShareKey, int>) {
    forall k :: ShareAt(r, k) == if k.delegator == del && Has(vals, k.validator) then x else ShareAt(shares, k)
  }

  ghost predicate SameKeys(st: Store, r: Store) {
    r.validators.Keys == st.validators.Keys && r.delegators == st.delegators
  }

  lemma GivenFirst(shares: map<ShareKey, int>, s: map<ShareKey, int>, vals: seq<Validator>, del: Address, x: int, r: map<ShareKey, int>)
    requires vals != [] && Given(s, vals[1..], del, x, r)
    requires forall k :: ShareAt(s, k) == if k == ShareKey(vals[0].operator, del) then x else ShareAt(shares, k)
    ensures Given(shares, vals, del, x, r)
  {
    hide Has;
    forall k
      ensures ShareAt(r, k) == if k.delegator == del && Has(vals, k.validator) then x else ShareAt(shares, k)
    {
      HasFirst(vals, k.validator);
      assert ShareAt(s, k) == if k == ShareKey(vals[0].operator, del) then x else ShareAt(shares, k);
    }
  }

  /** The loop fails exactly on a destroyed validator, and otherwise keeps every total. */
  lemma {:induction false} UpdateLoopSteady(st: Store, ctx: Context, del: Address, vals: seq<Validator>, last: int, shares: int)
    requires ctx.Valid() && Steady(st, ctx) && Current(st, vals) && HoldsAll(st.shares, vals, del, last)
    ensures
      var r := UpdateLoop(st, ctx, del, vals, last, shares);
      && (r.None? <==> SomeDestroyed(vals))
      && (r.Some? ==>
            && Steady(r.value, ctx) && Reshares(st, r.value) && SameKeys(st, r.value)
            && Given(st.shares, vals, del, shares, r.value.shares))
    decreases |vals|
  {
    hide Steady, Reshares, ShareSum, Given, Reweigh;
    if vals == [] {
      UpdateLoopEmpty(st, del, shares);
    } else if vals[0].minSelfDelegation != 0 {
      var v := vals[0];
      var k := ShareKey(v.operator, del);
      var entries := st.shares[k := shares];
      forall a
        ensures ShareSum(entries, a) == ShareSum(st.shares, a) + if a == v.operator then shares - last else 0
      {
        EntriesUpdate(st.shares, k, shares, a);
      }
      ReweighSteady(st, ctx, v, v.shares - last + shares, entries);
      var st1 := Reweigh(st.(shares := entries), ctx, v, v.shares - last + shares);
      UpdateLoopSteady(st1, ctx, del, vals[1..], last, shares);
      var r := UpdateLoop(st1, ctx, del, vals[1..], last, shares);
      if r.Some? {
        ResharesTransitive(st, st1, r.value);
        GivenFirst(st.shares, entries, vals, del, shares, r.value.shares);
      } else {
        var i :| 0 <= i < |vals[1..]| && vals[1..][i].minSelfDelegation == 0;
        assert vals[i + 1].minSelfDelegation == 0;
      }
    }
  }

  lemma UpdateLoopEmpty(st: Store, del: Address, shares: int)
    ensures Reshares(st, st) && Given(st.shares, [], del, shares, st.shares)
  {
  }

  // ---------- From loops to the share invariant ----------

  /** The share invariant for every delegator but one. */
  ghost predicate OthersOk(st: Store, del: Address) {
    && (forall k: ShareKey :: k.delegator != del ==> ShareAt(st.shares, k) == Recorded(st, k))
    && (forall a :: a in st.delegators && a != del ==> ListOk(st.delegators[a]))
  }

  /** Giving the delegator its new shares on exactly the existing validators of its new record
      completes the invariant. */
  lemma GivenSharesOk(st: Store, mid: Store, del: Address, vals: seq<Validator>, d: Delegator)
    requires OthersOk(st, del) && ShareTotalsOk(mid) && SameKeys(st, mid)
    requires Given(st.shares, vals, del, d.shares, mid.shares)
    requires forall k: ShareKey :: k.delegator == del && !Has(vals, k.validator) ==> ShareAt(st.shares, k) == 0
    requires forall a :: Has(vals, a) <==> a in d.validators && a in st.validators
    requires ListOk(d)
    ensures SharesOk(SetDelegator(mid, del, d))
  {
    hide ShareSum, Has;
    var r := SetDelegator(mid, del, d);
    forall a | a in r.validators
      ensures SharesAt(r, a)
    {
      assert SharesAt(mid, a);
    }
    forall k
      ensures ShareAt(r.shares, k) == Recorded(r, k)
    {
      assert ShareAt(mid.shares, k) == if k.delegator == del && Has(vals, k.validator) then d.shares else ShareAt(st.shares, k);
      if k.delegator != del {
        assert ShareAt(st.shares, k) == Recorded(st, k);
      } else if !Has(vals, k.validator) {
        assert ShareAt(st.shares, k) == 0;
      }
    }
  }

  /** Some listed validator has been destroyed. */
  ghost predicate Dismissed(st: Store, vs: seq<Address>) {
    exists v :: v in vs && v in st.validators && st.validators[v].minSelfDelegation == 0
  }

  /** At most the delegator's own shares differ. */
  ghost predicate Reweighs(ds: map<Address, Delegator>, ds': map<Address, Delegator>, del: Address) {
    ds' == ds || (del in ds && exists x :: ds' == ds[del := ds[del].(shares := x)])
  }

  /** The records read for a delegator hold its recorded shares, and it has none elsewhere. */
  lemma ListedHeld(st: Store, del: Address)
    requires RecordsOk(st) && SharesOk(st) && del in st.delegators
    ensures
      var d := st.delegators[del];
      var vals := Existing(st, d.validators);
      && ListOk(d) && Current(st, vals)
      && (forall a :: Has(vals, a) <==> a in d.validators && a in st.validators)
      && HoldsAll(st.shares, vals, del, d.shares)
      && (forall k: ShareKey :: k.delegator == del && !Has(vals, k.validator) ==> ShareAt(st.shares, k) == 0)
  {
    hide ShareTotalsOk, Has;
    var d := st.delegators[del];
    var vals := Existing(st, d.validators);
    assert ListOk(d);
    ExistingMeans(st, d.validators);
    forall i | 0 <= i < |vals|
      ensures ShareAt(st.shares, ShareKey(vals[i].operator, del)) == d.shares
    {
      HasAt(vals, i);
      assert ShareAt(st.shares, ShareKey(vals[i].operator, del)) == Recorded(st, ShareKey(vals[i].operator, del));
    }
    forall k: ShareKey | k.delegator == del && !Has(vals, k.validator)
      ensures ShareAt(st.shares, k) == 0
    {
      assert ShareAt(st.shares, k) == Recorded(st, k);
    }
  }

  lemma HasAt(vals: seq<Validator>, i: nat)
    requires i < |vals|
    ensures Has(vals, vals[i].operator)
  {
  }

  lemma DismissedExisting(st: Store, vs: seq<Address>)
    requires RecordsOk(st) && NoRepeats(vs)
    ensures Dismissed(st, vs) <==> SomeDestroyed(Existing(st, vs))
  {
    hide Has;
    ExistingMeans(st, vs);
    var vals := Existing(st, vs);
    if Dismissed(st, vs) {
      var v :| v in vs && v in st.validators && st.validators[v].minSelfDelegation == 0;
      var i := HasWhere(vals, v);
      assert vals[i].minSelfDelegation == 0;
    } else {
      forall i | 0 <= i < |vals|
        ensures vals[i].minSelfDelegation != 0
      {
        HasAt(vals, i);
      }
    }
  }

  lemma HasWhere(vals: seq<Validator>, a: Address) returns (i: nat)
    requires Has(vals, a)
    ensures i < |vals| && vals[i].operator == a
  {
    i :| 0 <= i < |vals| && vals[i].operator == a;
  }

  /** UpdateShares rewrites the delegator's shares, on each listed validator and in its record;
      it fails exactly when a listed validator has been destroyed. */
  lemma UpdateSharesKeeps(st: Store, ctx: Context, del: Address, tokens: int)
    requires ctx.Valid() && Steady(st, ctx) && SharesOk(st)
    requires tokens >= 0
    ensures
      var r := UpdateShares(st, ctx, del, tokens);
      && (r.None? <==> del in st.delegators && Dismissed(st, st.delegators[del].validators))
      && (r.Some? ==>
            && Steady(r.value, ctx) && SharesOk(r.value) && Reshares(st, r.value)
            && r.value.validators.Keys == st.validators.Keys
            && Reweighs(st.delegators, r.value.delegators, del))
  {
    hide Given, UpdateLoop, Weigh, Dismissed, Current, HoldsAll, IndexOk, ShareTotalsOk, Has, SharesOk, OthersOk;
    UpdateLoopEmpty(st, del, 0);
    if del in st.delegators {
      var d := st.delegators[del];
      var vals := Existing(st, d.validators);
      ListedHeld(st, del);
      DismissedExisting(st, d.validators);
      if vals != [] {
        var shares := Weigh(ctx, tokens);
        WeighNonNegative(ctx, tokens);
        UpdateLoopSteady(st, ctx, del, vals, d.shares, shares);
        var mid := UpdateLoop(st, ctx, del, vals, d.shares, shares);
        if mid.Some? {
          SharesOkOthers(st, del);
          SomeListed(st, d.validators);
          GivenSharesOk(st, mid.value, del, vals, d.(shares := shares));
          SetDelegatorSteady(mid.value, ctx, del, d.(shares := shares));
        }
      }
    }
  }

  lemma SomeListed(st: Store, vs: seq<Address>)
    requires Existing(st, vs) != []
    ensures vs != []
  {
  }

  lemma SharesOkOthers(st: Store, del: Address)
    requires SharesOk(st)
    ensures OthersOk(st, del) && ShareTotalsOk(st)
  {
  }

  lemma SetDelegatorSteady(st: Store, ctx: Context, del: Address, d: Delegator)
    requires ctx.Valid() && Steady(st, ctx)
    ensures Steady(SetDelegator(st, del, d), ctx)
  {
    hide ShareSum, Power;
    var r := SetDelegator(st, del, d);
    forall a | a in r.validators
      ensures SharesAt(r, a)
    {
      assert SharesAt(st, a);
    }
    forall k
      ensures k in r.powerIndex <==> Indexes(r, ctx, k)
    {
      assert k in st.powerIndex <==> Indexes(st, ctx, k);
    }
  }
}
