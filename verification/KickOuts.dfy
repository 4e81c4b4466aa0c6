/** The kick-out in the middle of an epoch: abandoned validators leave, the next candidates of
    the ranking take their places, and the last powers are updated step by step. */
module KickOuts {
  import opened EvmTypes
  import opened Coins
  import opened Sums
  import opened StakingStore
  import opened StakingInvariants
  import opened ValidatorSet
  import opened Elections
  import opened EpochElections

  /** The addresses to kick out are distinct and bonded. */
  ghost predicate AbandonedBonded(st: Store) {
    NoRepeats(st.abandoned) && forall a :: a in st.abandoned ==> a in st.validators && st.validators[a].status == Bonded
  }

  lemma AbandonedAreBonded(st: Store)
    requires AbandonedOk(st)
    ensures AbandonedBonded(st)
  {
    forall a | a in st.abandoned
      ensures a in st.validators && st.validators[a].status == Bonded
    {
      assert Abandons(st, a);
    }
  }

  /** The candidates that take the places of the abandoned validators. */
  function Promoted(st: Store, ctx: Context): seq<Address>
    requires ctx.Valid()
  {
    Take(Eligibles(st, ctx, Ranking(st), st.lastPowers.Keys), |st.abandoned|)
  }

  /** They are exactly the best eligible validators outside the last set. */
  lemma PromotedAreTop(st: Store, ctx: Context)
    requires ctx.Valid() && RecordsOk(st) && IndexOk(st, ctx)
    ensures Top(st, ctx, Promoted(st, ctx), |st.abandoned|, st.lastPowers.Keys)
  {
    hide Top, RecordsOk, IndexOk;
    FirstAreTop(st, ctx, |st.abandoned|, st.lastPowers.Keys);
  }

  /** Promoting a validator outside the last set is electing it. */
  lemma PromoteElects(e: Election, ctx: Context, v: Validator)
    requires ctx.Valid() && v.operator !in e.last && v.status != Bonded
    ensures Promote(e, ctx, v) == Elect(e, ctx, v)
  {
    hide BondValidator, Power;
    assert e.last - {v.operator} == e.last;
  }

  /** The promotion loop never meets a missing or already bonded candidate, and promotes the
      first eligible ones outside the last set. */
  lemma {:induction false} PromoteLoopFilters(e: Election, ctx: Context, keys: seq<PowerKey>, n: nat, base: map<Address, int>)
    requires ctx.Valid() && Tracks(e, ctx, base) && Ranked(e.store, ctx, keys) && NonNegative(e.store)
    requires CanElect(e, ctx, Eligibles(e.store, ctx, keys, e.last.Keys), base)
    ensures PromoteLoop(e, ctx, keys, n) == Ok(ElectAll(e, ctx, Take(Eligibles(e.store, ctx, keys, e.last.Keys), n)))
    decreases |keys|
  {
    hide Tracks, CanElect, Moves, Elect, ElectAll, Ranked, Outranks, Promote;
    var el := Eligibles(e.store, ctx, keys, e.last.Keys);
    ElectAllNone(e, ctx);
    if keys != [] && n > 0 {
      RankedFirst(e.store, ctx, keys);
      var a := keys[0].operator;
      var v := e.store.validators[a];
      SameMeritsSelf(e.store);
      RankedRest(e.store, e.store, ctx, keys);
      if a in e.last || Power(ctx, v.shares) == 0 || v.minSelfDelegation < MIN_SELF_DELEGATION {
        PromoteLoopFilters(e, ctx, keys[1..], n, base);
      } else {
        var rest := Eligibles(e.store, ctx, keys[1..], e.last.Keys);
        assert el == [a] + rest && el[1..] == rest;
        CanElectFirst(e, ctx, el, base);
        NotBonded(e, ctx, a, base);
        PromoteElects(e, ctx, v);
        ElectTracks(e, ctx, v, base);
        ElectFields(e, ctx, v);
        var s := Elect(e, ctx, v);
        TracksRecords(e, ctx, base);
        CanElectRest(e, ctx, el, base);
        MovesMerits(e.store, s.store, v.(status := Bonded), e.store.lastPowers[v.operator := Power(ctx, v.shares)]);
        EligiblesSame(e.store, s.store, ctx, keys[1..], e.last.Keys);
        RankedRest(e.store, s.store, ctx, keys);
        assert s.last == e.last;
        PromoteLoopFilters(s, ctx, keys[1..], n - 1, base);
        TakeFirst(a, rest, n);
        ElectAllFirst(e, ctx, a, Take(rest, n - 1));
      }
    }
  }

  lemma NotBonded(e: Election, ctx: Context, a: Address, base: map<Address, int>)
    requires ctx.Valid() && Tracks(e, ctx, base) && a in e.store.validators && a !in e.last
    requires Untouched(e.updates, a) && SameAt(e.last, base, a)
    ensures e.store.validators[a].status != Bonded
  {
    hide RecordsOk, IndexOk, QueueOk, ExactDiff, Applied;
    AppliedUntouched(base, e.updates, a);
  }

  // ---------- Discharging ----------

  ghost function Restrict(m: map<Address, int>, s: seq<Address>): map<Address, int> {
    Restricted(m, Members(s))
  }

  lemma RestrictFirst(m: map<Address, int>, s: seq<Address>)
    requires s != [] && NoRepeats(s) && s[0] in m
    ensures Sum(Restrict(m, s)) == m[s[0]] + Sum(Restrict(m, s[1..]))
  {
    hide Sum;
    SumUpdate(Restrict(m, s[1..]), s[0], m[s[0]]);
    assert forall a :: a in s <==> a == s[0] || a in s[1..];
    assert Restrict(m, s) == Restrict(m, s[1..])[s[0] := m[s[0]]];
  }

  lemma {:induction false} RetireAllTotal(e: Election, ctx: Context, out: seq<Address>, total: int)
    requires ctx.Valid()
    ensures RetireAll(e.(total := total), ctx, out) == RetireAll(e, ctx, out).(total := total)
    decreases |out|
  {
    hide BeginUnbonding;
    if out != [] && out[0] in e.store.validators {
      RetireAllTotal(Retire(e, ctx, e.store.validators[out[0]]), ctx, out[1..], total);
    }
  }

  /** The discharge loop never meets a missing or unrecorded validator; it retires every one and
      takes exactly their last powers off the total. */
  lemma {:induction false} DischargeRetires(e: Election, ctx: Context, out: seq<Address>, base: map<Address, int>)
    requires ctx.Valid() && Tracks(e, ctx, base) && CanRetire(e, out) && (forall a :: a in out ==> a in e.last)
    ensures DischargeLoop(e, ctx, out) ==
            Ok(RetireAll(e, ctx, out).(total := e.total - Sum(Restrict(e.last, out))))
    decreases |out|
  {
    hide CanRetire, Moves, BeginUnbonding, Untouched, Sum, Restrict, RecordsOk, IndexOk, QueueOk, BondedOk, Applied, ExactDiff;
    if out == [] {
      NoneRestricted(e.last);
      RetireAllTotal(e, ctx, out, e.total);
    } else {
      CanRetireFirst(e, ctx, out, base);
      var v := e.store.validators[out[0]];
      assert out[0] in out;
      RetireTracks(e, ctx, v, base);
      CanRetireRest(e, ctx, out);
      var s := Retire(e, ctx, v);
      RestrictFirst(e.last, out);
      var total := e.total - e.last[out[0]];
      CanRetireTotal(s, out[1..], total);
      DischargeRetires(s.(total := total), ctx, out[1..], base);
      RetireAllTotal(s, ctx, out[1..], total);
    }
  }

  lemma CanRetireTotal(e: Election, out: seq<Address>, total: int)
    requires CanRetire(e, out)
    ensures CanRetire(e.(total := total), out)
  {
    hide Untouched;
  }

  lemma NoneRestricted(m: map<Address, int>)
    ensures Sum(Restrict(m, [])) == 0
  {
    assert Restrict(m, []) == map[];
  }

  // ---------- The kick-out ----------

  /** A validator's record after the kick-out. */
  function Replaced(v: Validator, ctx: Context, promoted: bool, abandoned: bool): Validator {
    if promoted then v.(status := Bonded)
    else if abandoned then v.(status := Unbonding, unbondingTime := ctx.maturity)
    else v
  }

  /** What the kick-out leaves: the abandoned are unbonding, the promoted bonded, and the last
      powers lose the former and gain the latter. */
  ghost predicate Replaces(st: Store, r: Store, ctx: Context, el: seq<Address>)
    requires ctx.Valid()
  {
    && r.validators.Keys == st.validators.Keys
    && (forall a :: a in st.validators ==>
          r.validators[a] == Replaced(st.validators[a], ctx, a in el, a in st.abandoned))
    && (forall a :: a in r.lastPowers <==> (a in st.lastPowers && a !in st.abandoned) || a in el)
    && (forall a :: a in st.lastPowers && a !in st.abandoned ==> r.lastPowers[a] == st.lastPowers[a])
    && (forall a :: a in el ==> a in st.validators && r.lastPowers[a] == Power(ctx, st.validators[a].shares))
    && r == st.(validators := r.validators, queue := r.queue, lastPowers := r.lastPowers, lastTotal := r.lastTotal)
  }

  /** Candidates come from outside the last set, the abandoned from inside. */
  ghost predicate Apart(st: Store, el: seq<Address>) {
    && (forall a :: a in el ==> a in st.validators && a !in st.lastPowers)
    && (forall a :: a in st.abandoned ==> a in st.lastPowers)
  }

  lemma BondsDischarges(st: Store, s: Store, r: Store, ctx: Context, el: seq<Address>)
    requires ctx.Valid() && Apart(st, el) && Bonds(st, s, ctx, el) && Retires(s, r, ctx, st.abandoned)
    ensures Replaces(st, r, ctx, el)
  {
    hide Power;
    forall a | a in st.validators
      ensures r.validators[a] == Replaced(st.validators[a], ctx, a in el, a in st.abandoned)
    {
    }
  }

  /** The total of the new last powers. */
  lemma ReplacedTotal(st: Store, s: Store, r: Store, ctx: Context, el: seq<Address>)
    requires ctx.Valid() && Apart(st, el) && Bonds(st, s, ctx, el) && Retires(s, r, ctx, st.abandoned)
    ensures Sum(r.lastPowers) ==
            Sum(st.lastPowers) + Sum(PowersOf(st, ctx, el)) - Sum(Restrict(st.lastPowers, st.abandoned))
  {
    hide Power, Sum, Restrict, PowersOf;
    var m := s.lastPowers;
    GainedPowers(st, s, ctx, el);
    RestrictSplit(m, el);
    RestrictSplit(m, st.abandoned);
    LostPowers(st, s, ctx, el);
  }

  lemma RestrictSplit(m: map<Address, int>, s: seq<Address>)
    ensures Sum(m) == Sum(m - Members(s)) + Sum(Restrict(m, s))
  {
    hide Sum;
    SumSplit(m, Members(s));
  }

  lemma GainedPowers(st: Store, s: Store, ctx: Context, el: seq<Address>)
    requires ctx.Valid() && Apart(st, el) && Bonds(st, s, ctx, el)
    ensures s.lastPowers - Members(el) == st.lastPowers && Restrict(s.lastPowers, el) == PowersOf(st, ctx, el)
  {
    hide Power;
  }

  lemma LostPowers(st: Store, s: Store, ctx: Context, el: seq<Address>)
    requires ctx.Valid() && Apart(st, el) && Bonds(st, s, ctx, el)
    ensures Restrict(s.lastPowers, st.abandoned) == Restrict(st.lastPowers, st.abandoned)
  {
    hide Power;
  }

  lemma {:induction false} DistinctSize(s: seq<Address>)
    ensures |Members(s)| <= |s|
    ensures NoRepeats(s) ==> |Members(s)| == |s|
  {
    if s == [] {
      assert Members(s) == {};
    } else {
      DistinctSize(s[1..]);
      assert Members(s) == {s[0]} + Members(s[1..]);
      assert NoRepeats(s) ==> s[0] !in s[1..];
    }
  }

  /** Being the best determines who they are. */
  lemma TopUnique(st: Store, ctx: Context, s: seq<Address>, t: seq<Address>, n: nat, skip: set<Address>)
    requires ctx.Valid() && Top(st, ctx, s, n, skip) && Top(st, ctx, t, n, skip)
    ensures Members(s) == Members(t)
  {
    TopWithin(st, ctx, s, t, n, skip);
    TopWithin(st, ctx, t, s, n, skip);
  }

  lemma TopWithin(st: Store, ctx: Context, s: seq<Address>, t: seq<Address>, n: nat, skip: set<Address>)
    requires ctx.Valid() && Top(st, ctx, s, n, skip) && Top(st, ctx, t, n, skip)
    ensures Members(s) <= Members(t)
  {
    hide Eligible, RankOf;
    DistinctSize(s);
    DistinctSize(t);
    forall a | a in s
      ensures a in t
    {
      if a !in t {
        Outnumbered(Members(s), Members(t), a);
      }
    }
  }

  lemma Outnumbered(s: set<Address>, t: set<Address>, a: Address)
    requires |s| <= |t| && a in s && a !in t
    ensures exists b :: b in t && b !in s
  {
    if t <= s {
      assert t <= s - {a};
      Smaller(t, s - {a});
    }
  }

  lemma Smaller(s: set<Address>, t: set<Address>)
    requires s <= t
    ensures |s| <= |t|
  {
    assert t == s + (t - s);
  }

  /** Never more validators come than go. */
  lemma ReplacedSize(st: Store, r: Store, ctx: Context, el: seq<Address>)
    requires ctx.Valid() && Apart(st, el) && Replaces(st, r, ctx, el)
    requires NoRepeats(st.abandoned) && |el| <= |st.abandoned|
    ensures |r.lastPowers| <= |st.lastPowers|
  {
    hide Power, NoRepeats;
    DistinctSize(st.abandoned);
    DistinctSize(el);
    ReplacedMembers(st.lastPowers.Keys, r.lastPowers.Keys, st.abandoned, el);
  }

  lemma ReplacedMembers(before: set<Address>, after: set<Address>, gone: seq<Address>, come: seq<Address>)
    requires |Members(come)| <= |Members(gone)| && forall a :: a in gone ==> a in before
    requires forall a :: a in after <==> (a in before && a !in gone) || a in come
    ensures |after| <= |before|
  {
    ReplacedKeys(before, after, Members(gone), Members(come));
  }

  lemma ReplacedKeys(before: set<Address>, after: set<Address>, gone: set<Address>, come: set<Address>)
    requires gone <= before && after == before - gone + come && |come| <= |gone|
    ensures |after| <= |before|
  {
    var stay := before - gone;
    assert before == stay + gone;
    assert after == stay + (come - stay);
    assert come == (come - stay) + (come * stay);
  }

  lemma PromotedApart(st: Store, ctx: Context)
    requires ctx.Valid() && LastOk(st) && AbandonedBonded(st)
    ensures Apart(st, Promoted(st, ctx)) && |Promoted(st, ctx)| <= |st.abandoned|
  {
    hide Sum, Ranking, Eligibles;
    var all := Eligibles(st, ctx, Ranking(st), st.lastPowers.Keys);
    assert forall a :: a in Promoted(st, ctx) ==> a in all;
    forall a | a in st.abandoned
      ensures a in st.lastPowers
    {
      assert a in st.validators && st.validators[a].status == Bonded;
    }
  }

  /** The promotion loop from the start. */
  lemma PromotionElects(st: Store, ctx: Context)
    requires ctx.Valid() && RecordsOk(st) && IndexOk(st, ctx) && QueueOk(st) && LastOk(st) && NonNegative(st)
    requires AbandonedBonded(st)
    ensures
      var el := Promoted(st, ctx);
      var s := PromoteLoop(Election(st, st.lastPowers, [], st.lastTotal), ctx, Ranking(st), |st.abandoned|);
      && s.Ok? && Tracks(s.value, ctx, st.lastPowers) && Bonds(st, s.value.store, ctx, el)
      && s.value.last == st.lastPowers && s.value.total == st.lastTotal + Sum(PowersOf(st, ctx, el))
      && (forall a :: a !in el ==> Untouched(s.value.updates, a))
  {
    hide RecordsOk, IndexOk, QueueOk, LastOk, NonNegative, Tracks, CanElect, Bonds, PromoteLoop, ElectAll,
      Eligibles, Ranking, Sum, PowersOf, Untouched, AbandonedBonded;
    var base := st.lastPowers;
    var e := Election(st, base, [], st.lastTotal);
    var all := Eligibles(st, ctx, Ranking(st), base.Keys);
    StartTracks(st, ctx, st.lastTotal);
    StartCanElect(st, ctx, base.Keys, st.lastTotal);
    RankingRanked(st, ctx);
    PromoteLoopFilters(e, ctx, Ranking(st), |st.abandoned|, base);
    CanElectTake(e, ctx, all, base, |st.abandoned|);
    ElectAllBonds(e, ctx, Promoted(st, ctx), base);
    NothingTouched();
    PromotedApart(st, ctx);
    assert base - Members(Promoted(st, ctx)) == base;
  }

  lemma AbandonedRetire(st: Store, s: Election, ctx: Context, el: seq<Address>)
    requires ctx.Valid() && AbandonedBonded(st) && Apart(st, el) && Bonds(st, s.store, ctx, el)
    requires forall a :: a !in el ==> Untouched(s.updates, a)
    ensures CanRetire(s, st.abandoned)
  {
    hide Untouched, Power;
    forall a | a in st.abandoned
      ensures a in s.store.validators && s.store.validators[a].status == Bonded && Untouched(s.updates, a)
    {
      assert a in st.validators && st.validators[a].status == Bonded;
    }
  }

  /** KickOutAndReturnValidatorSetUpdates never panics.  It replaces the abandoned validators by
      the next eligible candidates, never enlarges the set, keeps the total right and returns
      exactly the differences. */
  lemma KickOutReplaces(st: Store, ctx: Context)
    requires ctx.Valid() && RecordsOk(st) && IndexOk(st, ctx) && QueueOk(st) && LastOk(st) && NonNegative(st)
    requires AbandonedBonded(st)
    ensures
      var r := KickOut(st, ctx);
      && r.Ok?
      && Replaces(st, r.value.0, ctx, Promoted(st, ctx))
      && |r.value.0.lastPowers| <= |st.lastPowers|
      && RecordsOk(r.value.0) && IndexOk(r.value.0, ctx) && QueueOk(r.value.0) && LastOk(r.value.0)
      && Applied(st.lastPowers, r.value.1) == r.value.0.lastPowers
      && ExactDiff(st.lastPowers, r.value.1)
  {
    hide RecordsOk, IndexOk, QueueOk, LastOk, NonNegative, Tracks, CanRetire, Bonds, Retires, PromoteLoop, Apart,
      DischargeLoop, RetireAll, Promoted, Ranking, Sum, PowersOf, Replaces, Untouched, Applied, ExactDiff, Restrict,
      RetireLoop;
    var el := Promoted(st, ctx);
    PromotionElects(st, ctx);
    PromotedApart(st, ctx);
    var s := PromoteLoop(Election(st, st.lastPowers, [], st.lastTotal), ctx, Ranking(st), |st.abandoned|).value;
    AbandonedRetire(st, s, ctx, el);
    AbandonedLast(st, el);
    DischargeRetires(s, ctx, st.abandoned, st.lastPowers);
    RetireAllRetires(s, ctx, st.abandoned, st.lastPowers);
    var f := RetireAll(s, ctx, st.abandoned);
    BondsDischarges(st, s.store, f.store, ctx, el);
    ReplacedTotal(st, s.store, f.store, ctx, el);
    ReplacedSize(st, f.store, ctx, el);
    TotalIs(st);
    FinishKickOut(st, f, ctx, el, s.total - Sum(Restrict(st.lastPowers, st.abandoned)));
  }

  lemma TotalIs(st: Store)
    requires LastOk(st)
    ensures st.lastTotal == Sum(st.lastPowers)
  {
  }

  lemma AbandonedLast(st: Store, el: seq<Address>)
    requires Apart(st, el)
    ensures forall a :: a in st.abandoned ==> a in st.lastPowers
  {
  }

  lemma FinishKickOut(st: Store, f: Election, ctx: Context, el: seq<Address>, total: int)
    requires ctx.Valid() && Tracks(f, ctx, st.lastPowers) && Replaces(st, f.store, ctx, el) && LastOk(st)
    requires total == Sum(f.store.lastPowers)
    ensures
      var r := f.store.(lastTotal := total);
      && Replaces(st, r, ctx, el) && RecordsOk(r) && IndexOk(r, ctx) && QueueOk(r) && LastOk(r)
      && Applied(st.lastPowers, f.updates) == r.lastPowers && ExactDiff(st.lastPowers, f.updates)
  {
    hide RecordsOk, IndexOk, QueueOk, Sum, ExactDiff, Power;
    TotalFrame(f.store, f.store.(lastTotal := total), ctx);
  }
}
