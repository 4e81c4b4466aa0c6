/** Fee distribution conserves coins. */
module Conservation {
  import opened EvmTypes
  import opened Coins
  import opened Sums
  import opened Distribution

  // ---------- Fractions ----------

  lemma {:induction false} TotalConstant(f: nat, n: nat)
    ensures Total(seq(n, i => f)) == n * f
    decreases n
  {
    if n > 0 {
      assert seq(n, i => f)[..n - 1] == seq(n - 1, i => f);
      TotalConstant(f, n - 1);
    }
  }

  /** Equal fractions never exceed one. */
  lemma EqualTotal(n: nat)
    requires n > 0
    ensures Total(EqualFractions(n)) <= ONE
  {
    var f := QuoTruncate(ONE, n * ONE);
    assert EqualFractions(n) == seq(n, i => f);
    TotalConstant(f, n);
    QuotientBound(ONE, n);
  }

  lemma QuotientBound(one: nat, n: nat)
    requires n > 0 && one > 0
    ensures n * (one * one / (n * one)) <= one
  {
    var q := one * one / (n * one);
    assert q * (n * one) <= one * one;
    assert (q * n) * one <= one * one;
    if q * n > one {
      MulStrict(one, one, q * n);
    }
  }

  lemma MulStrict(r: nat, a: nat, b: nat)
    requires a < b && r > 0
    ensures r * a < r * b
  {
  }

  lemma ShareFraction(s: nat, total: nat)
    requires total > 0
    ensures s * ONE - total < QuoTruncate(s, total) * total <= s * ONE
  {
    var q := s * ONE / total;
    assert s * ONE == q * total + s * ONE % total;
  }

  /** Fractions by share, times the total, miss the exact value by less than the total each. */
  lemma {:induction false} ShareTotal(vals: seq<Validator>, total: nat)
    requires total > 0
    ensures TotalShares(vals) * ONE - |vals| * total <= Total(ShareFractions(vals, total)) * total <= TotalShares(vals) * ONE
  {
    if vals != [] {
      var n := |vals| - 1;
      ShareTotal(vals[..n], total);
      ShareFraction(vals[n].shares, total);
      assert ShareFractions(vals, total)[..n] == ShareFractions(vals[..n], total);
      var a, q := Total(ShareFractions(vals[..n], total)), QuoTruncate(vals[n].shares, total);
      assert Total(ShareFractions(vals, total)) == a + q;
      hide TotalShares, Total, ShareFractions, QuoTruncate;
      Distribute(a, q, total);
      Distribute(n, 1, total);
    }
  }

  lemma Distribute(a: nat, b: nat, t: nat)
    ensures (a + b) * t == a * t + b * t
  {
  }

  lemma ShareTotalBounds(vals: seq<Validator>)
    requires TotalShares(vals) > 0
    ensures ONE - |vals| <= Total(ShareFractions(vals, TotalShares(vals))) <= ONE
  {
    hide TotalShares, Total, ShareFractions;
    var t := TotalShares(vals);
    var f := Total(ShareFractions(vals, t));
    ShareTotal(vals, t);
    if f > ONE {
      MulStrict(t, ONE, f);
    }
    if f < ONE - |vals| {
      MulStrict(t, f + |vals|, ONE);
      Distribute(f, |vals|, t);
    }
  }

  // ---------- Rewards ----------

  /** The subtractions of the allocation loops never go negative, and leave exactly what was
      not handed out. */
  lemma {:induction false} RemainingAmounts(rewards: Coins, fs: seq<nat>)
    requires Total(fs) <= ONE
    ensures Remaining(rewards, fs).Some?
    ensures forall d :: Shared(Amount(rewards, d), fs) <= Amount(rewards, d)
    ensures forall d :: Amount(Remaining(rewards, fs).value, d) == Amount(rewards, d) - Shared(Amount(rewards, d), fs)
    ensures Normal(rewards) ==> Normal(Remaining(rewards, fs).value)
  {
    forall d {
      SharedWithin(Amount(rewards, d), fs);
    }
    if fs != [] {
      RemainingAmounts(rewards, fs[..|fs| - 1]);
    }
  }

  ghost function CommissionAmounts(m: map<ValAddress, Coins>, d: Denom): map<ValAddress, int> {
    map v | v in m :: Amount(m[v], d) as int
  }

  /** The sum of the accumulated commissions. */
  ghost function CommissionTotal(m: map<ValAddress, Coins>, d: Denom): int {
    Sum(CommissionAmounts(m, d))
  }

  lemma CommissionUpdate(m: map<ValAddress, Coins>, v: ValAddress, c: Coins, d: Denom)
    ensures CommissionTotal(m[v := c], d) == CommissionTotal(m, d) - Amount(Commission(m, v), d) + Amount(c, d)
  {
    SumUpdate(CommissionAmounts(m, d), v, Amount(c, d));
    assert CommissionAmounts(m[v := c], d) == CommissionAmounts(m, d)[v := Amount(c, d) as int];
  }

  lemma CommissionRemove(m: map<ValAddress, Coins>, v: ValAddress, d: Denom)
    ensures CommissionTotal(m - {v}, d) == CommissionTotal(m, d) - Amount(Commission(m, v), d)
  {
    SumRemove(CommissionAmounts(m, d), v);
    assert CommissionAmounts(m - {v}, d) == CommissionAmounts(m, d) - {v};
  }

  lemma CommissionBound(m: map<ValAddress, Coins>, v: ValAddress, d: Denom)
    ensures Amount(Commission(m, v), d) <= CommissionTotal(m, d)
  {
    SumNonNegative(CommissionAmounts(m, d));
    if v in m {
      assert CommissionAmounts(m, d)[v] == Amount(m[v], d);
    }
  }

  /** The commissions grow by exactly what is handed out. */
  lemma {:induction false} CreditAllTotal(m: map<ValAddress, Coins>, vs: seq<ValAddress>, fs: seq<nat>, rewards: Coins, d: Denom)
    requires |vs| == |fs|
    ensures CommissionTotal(CreditAll(m, vs, fs, rewards), d) == CommissionTotal(m, d) + Shared(Amount(rewards, d), fs)
    decreases |vs|
  {
    if vs != [] {
      var n := |vs| - 1;
      CreditAllTotal(m, vs[..n], fs[..n], rewards, d);
      var m1 := CreditAll(m, vs[..n], fs[..n], rewards);
      CommissionUpdate(m1, vs[n], Add(Commission(m1, vs[n]), MulTruncate(rewards, fs[n])), d);
    }
  }

  /** Normal commissions stay normal. */
  lemma {:induction false} CreditAllNormal(m: map<ValAddress, Coins>, vs: seq<ValAddress>, fs: seq<nat>, rewards: Coins)
    requires |vs| == |fs| && AllNormal(m)
    ensures AllNormal(CreditAll(m, vs, fs, rewards))
    decreases |vs|
  {
    if vs == [] {
      assert CreditAll(m, vs, fs, rewards) == m;
    } else {
      var n := |vs| - 1;
      CreditAllNormal(m, vs[..n], fs[..n], rewards);
      hide CreditAll, MulTruncate;
      CreditStep(m, vs, fs, rewards);
      CreditNormal(CreditAll(m, vs[..n], fs[..n], rewards), vs[n], MulTruncate(rewards, fs[n]));
    }
  }

  lemma CreditStep(m: map<ValAddress, Coins>, vs: seq<ValAddress>, fs: seq<nat>, rewards: Coins)
    requires |vs| == |fs| && vs != []
    ensures
      var n := |vs| - 1;
      CreditAll(m, vs, fs, rewards) == Credit(CreditAll(m, vs[..n], fs[..n], rewards), vs[n], MulTruncate(rewards, fs[n]))
  {
  }

  lemma CreditNormal(m: map<ValAddress, Coins>, v: ValAddress, tokens: Coins)
    requires AllNormal(m) && Normal(tokens)
    ensures AllNormal(Credit(m, v, tokens))
  {
  }

  ghost predicate AllNormal(m: map<ValAddress, Coins>) {
    forall v :: v in m ==> Normal(m[v])
  }

  // ---------- The two allocation rules ----------

  lemma EqualConserves(st: State, rewards: Coins, votes: seq<ValAddress>, d: Denom)
    ensures var vs := EligibleVoters(st.validators, votes);
            var r := AllocateByEqual(st, rewards, votes);
            && (r.Panic? <==> vs == [])
            && (r.Ok? ==>
                  && CommissionTotal(r.value.0, d) + Amount(r.value.1, d) == CommissionTotal(st.commissions, d) + Amount(rewards, d)
                  && r.value.0.Keys == st.commissions.Keys + (set v | v in vs))
    ensures AllNormal(st.commissions) && Normal(rewards) && AllocateByEqual(st, rewards, votes).Ok? ==>
              AllNormal(AllocateByEqual(st, rewards, votes).value.0) && Normal(AllocateByEqual(st, rewards, votes).value.1)
  {
    hide Shared, CreditAll, Remaining, CommissionTotal, EligibleVoters, EqualFractions;
    var vs := EligibleVoters(st.validators, votes);
    if vs != [] {
      var fs := EqualFractions(|vs|);
      FractionCount(|vs|);
      EqualTotal(|vs|);
      RemainingAmounts(rewards, fs);
      CreditAllTotal(st.commissions, vs, fs, rewards, d);
      CreditAllKeys(st.commissions, vs, fs, rewards);
      if AllNormal(st.commissions) {
        CreditAllNormal(st.commissions, vs, fs, rewards);
      }
    }
  }

  lemma FractionCount(n: nat)
    requires n > 0
    ensures |EqualFractions(n)| == n
  {
  }

  lemma {:induction false} CreditAllKeys(m: map<ValAddress, Coins>, vs: seq<ValAddress>, fs: seq<nat>, rewards: Coins)
    requires |vs| == |fs|
    ensures CreditAll(m, vs, fs, rewards).Keys == m.Keys + (set v | v in vs)
    decreases |vs|
  {
    if vs != [] {
      var n := |vs| - 1;
      CreditAllKeys(m, vs[..n], fs[..n], rewards);
      assert vs == vs[..n] + [vs[n]];
    } else {
      assert m.Keys + {} == m.Keys;
    }
  }

  lemma SharesConserve(st: State, rewards: Coins, d: Denom)
    ensures var vals := Unjailed(st.validators);
            var r := AllocateByShares(st, rewards);
            && (r.Panic? <==> vals != [] && TotalShares(vals) == 0)
            && (r.Ok? ==>
                  && CommissionTotal(r.value.0, d) + Amount(r.value.1, d) == CommissionTotal(st.commissions, d) + Amount(rewards, d)
                  && r.value.0.Keys == st.commissions.Keys + (set v | v in Addresses(vals)))
    ensures AllNormal(st.commissions) && Normal(rewards) && AllocateByShares(st, rewards).Ok? ==>
              AllNormal(AllocateByShares(st, rewards).value.0) && Normal(AllocateByShares(st, rewards).value.1)
  {
    hide Shared, CreditAll, Remaining, CommissionTotal, Unjailed, TotalShares;
    var vals := Unjailed(st.validators);
    if vals == [] {
      assert Addresses(vals) == [];
      assert st.commissions.Keys + {} == st.commissions.Keys;
    } else if TotalShares(vals) > 0 {
      var fs := ShareFractions(vals, TotalShares(vals));
      ShareTotalBounds(vals);
      RemainingAmounts(rewards, fs);
      CreditAllTotal(st.commissions, Addresses(vals), fs, rewards, d);
      CreditAllKeys(st.commissions, Addresses(vals), fs, rewards);
      if AllNormal(st.commissions) {
        CreditAllNormal(st.commissions, Addresses(vals), fs, rewards);
      }
    }
  }

  /** What allocateByShares leaves over is at most one unit of truncation per validator, on the
      fraction and on the reward. */
  lemma ShareLeftover(st: State, rewards: Coins, d: Denom)
    requires Unjailed(st.validators) != [] && AllocateByShares(st, rewards).Ok?
    ensures Amount(AllocateByShares(st, rewards).value.1, d) * ONE <= |Unjailed(st.validators)| * (Amount(rewards, d) + ONE)
  {
    hide Shared, CreditAll, Unjailed, TotalShares, Total;
    var vals := Unjailed(st.validators);
    var n, r, fs := |vals|, Amount(rewards, d), ShareFractions(vals, TotalShares(vals));
    ShareTotalBounds(vals);
    RemainingAmounts(rewards, fs);
    SharedBounds(r, fs);
    LeftoverArithmetic(r, n, Total(fs), Shared(r, fs));
  }

  lemma LeftoverArithmetic(r: nat, n: nat, f: nat, given: nat)
    requires ONE - n <= f && r * f - n * ONE <= given * ONE && given <= r
    ensures (r - given) * ONE <= n * (r + ONE)
  {
    MulMonotone(r, ONE, f + n);
    Distribute(f, n, r);
  }

  // ---------- Who gets what ----------

  /** The truncated fraction of one denomination. */
  ghost function Cut(rewards: Coins, f: nat, d: Denom): nat {
    Amount(MulTruncate(rewards, f), d)
  }

  /** Among distinct validators, the i-th is credited the truncated i-th fraction and no other
      record changes. */
  lemma CreditAllAt(m: map<ValAddress, Coins>, vs: seq<ValAddress>, fs: seq<nat>, rewards: Coins, v: ValAddress, d: Denom)
    requires |vs| == |fs| && NoRepeats(vs)
    ensures v !in vs ==> Commission(CreditAll(m, vs, fs, rewards), v) == Commission(m, v)
    ensures forall i :: 0 <= i < |vs| && vs[i] == v ==>
              Amount(Commission(CreditAll(m, vs, fs, rewards), v), d) == Amount(Commission(m, v), d) + Amount(rewards, d) * fs[i] / ONE
  {
    hide CreditAll, Commission;
    CreditAllParts(m, vs, fs, rewards, v, d);
    forall i | 0 <= i < |vs| && vs[i] == v
      ensures Cut(rewards, fs[i], d) == Amount(rewards, d) * fs[i] / ONE
    {
    }
  }

  lemma {:induction false} CreditAllParts(m: map<ValAddress, Coins>, vs: seq<ValAddress>, fs: seq<nat>, rewards: Coins, v: ValAddress, d: Denom)
    requires |vs| == |fs| && NoRepeats(vs)
    ensures v !in vs ==> Commission(CreditAll(m, vs, fs, rewards), v) == Commission(m, v)
    ensures forall i :: 0 <= i < |vs| && vs[i] == v ==>
              Amount(Commission(CreditAll(m, vs, fs, rewards), v), d) == Amount(Commission(m, v), d) + Cut(rewards, fs[i], d)
    decreases |vs|
  {
    hide CreditAll, Cut, Commission, Amount, Credit;
    if vs == [] {
      CreditNone(m, vs, fs, rewards);
    } else {
      var n := |vs| - 1;
      CreditAllParts(m, vs[..n], fs[..n], rewards, v, d);
      CreditLast(m, vs, fs, rewards, v, d);
      assert forall i :: 0 <= i < n ==> vs[i] == vs[..n][i] && fs[i] == fs[..n][i];
      assert v in vs ==> v in vs[..n] || v == vs[n];
    }
  }

  lemma CreditNone(m: map<ValAddress, Coins>, vs: seq<ValAddress>, fs: seq<nat>, rewards: Coins)
    requires |vs| == |fs| == 0
    ensures CreditAll(m, vs, fs, rewards) == m
  {
  }

  lemma CreditLast(m: map<ValAddress, Coins>, vs: seq<ValAddress>, fs: seq<nat>, rewards: Coins, v: ValAddress, d: Denom)
    requires |vs| == |fs| && vs != []
    ensures
      var n := |vs| - 1;
      var r, s := CreditAll(m, vs, fs, rewards), CreditAll(m, vs[..n], fs[..n], rewards);
      && (v != vs[n] ==> Commission(r, v) == Commission(s, v))
      && (v == vs[n] ==> Amount(Commission(r, v), d) == Amount(Commission(s, v), d) + Cut(rewards, fs[n], d))
  {
    hide MulTruncate;
    var n := |vs| - 1;
    CreditOne(CreditAll(m, vs[..n], fs[..n], rewards), vs[n], MulTruncate(rewards, fs[n]), v, d);
  }

  lemma CreditOne(m: map<ValAddress, Coins>, w: ValAddress, tokens: Coins, v: ValAddress, d: Denom)
    ensures v != w ==> Commission(Credit(m, w, tokens), v) == Commission(m, v)
    ensures Amount(Commission(Credit(m, w, tokens), w), d) == Amount(Commission(m, w), d) + Amount(tokens, d)
  {
  }
}
