/** The election at the end of an epoch: the loop with its early exit elects the first eligible
    validators of the ranking. */
module EpochElections {
  import opened EvmTypes
  import opened Coins
  import opened Sums
  import opened StakingStore
  import opened StakingInvariants
  import opened ValidatorSet
  import opened Elections

  /** Unjailed, with power, and with enough self delegation. */
  predicate Eligible(st: Store, ctx: Context, a: Address)
    requires ctx.Valid()
  {
    && a in st.validators && !st.validators[a].jailed
    && Power(ctx, st.validators[a].shares) > 0 && st.validators[a].minSelfDelegation >= MIN_SELF_DELEGATION
  }

  /** The eligible operators among the keys, in the order of the keys. */
  function Eligibles(st: Store, ctx: Context, keys: seq<PowerKey>, skip: set<Address>): (r: seq<Address>)
    requires ctx.Valid()
    ensures forall a :: a in r ==> Eligible(st, ctx, a) && a !in skip
  {
    if keys == [] then []
    else
      var rest := Eligibles(st, ctx, keys[1..], skip);
      if Eligible(st, ctx, keys[0].operator) && keys[0].operator !in skip then [keys[0].operator] + rest else rest
  }

  function Take<T>(s: seq<T>, n: int): seq<T> {
    if n <= 0 then [] else if n >= |s| then s else s[..n]
  }

  /** The first validators of the ranking that are eligible. */
  function Elected(st: Store, ctx: Context): seq<Address>
    requires ctx.Valid()
  {
    Take(Eligibles(st, ctx, Ranking(st), {}), ctx.maxValidators)
  }

  ghost predicate NonNegative(st: Store) {
    forall a :: a in st.validators ==> st.validators[a].shares >= 0
  }

  /** Keys of the power index, best first. */
  ghost predicate Ranked(st: Store, ctx: Context, keys: seq<PowerKey>)
    requires ctx.Valid()
  {
    && (forall i :: 0 <= i < |keys| ==> Indexes(st, ctx, keys[i]))
    && (forall i, j :: 0 <= i < j < |keys| ==> Outranks(keys[i], keys[j]))
  }

  lemma RankingRanked(st: Store, ctx: Context)
    requires ctx.Valid() && IndexOk(st, ctx)
    ensures Ranked(st, ctx, Ranking(st))
  {
    hide Power;
    var keys := Ranking(st);
    forall i | 0 <= i < |keys|
      ensures Indexes(st, ctx, keys[i])
    {
      assert keys[i] in st.powerIndex;
    }
  }

  /** An operator has one key. */
  lemma RankedOnce(st: Store, ctx: Context, keys: seq<PowerKey>, i: nat, j: nat)
    requires ctx.Valid() && Ranked(st, ctx, keys) && i < j < |keys|
    ensures keys[i].operator != keys[j].operator
  {
    hide Power;
    assert Indexes(st, ctx, keys[i]) && Indexes(st, ctx, keys[j]);
    assert Outranks(keys[i], keys[j]);
  }

  /** The two stores agree on what eligibility and ranking look at. */
  ghost predicate SameMerits(st: Store, r: Store) {
    && r.validators.Keys == st.validators.Keys
    && forall a :: a in st.validators ==>
         && r.validators[a].jailed == st.validators[a].jailed && r.validators[a].shares == st.validators[a].shares
         && r.validators[a].minSelfDelegation == st.validators[a].minSelfDelegation
         && r.validators[a].operator == st.validators[a].operator
  }

  lemma {:induction false} EligiblesSame(st: Store, r: Store, ctx: Context, keys: seq<PowerKey>, skip: set<Address>)
    requires ctx.Valid() && SameMerits(st, r)
    ensures Eligibles(st, ctx, keys, skip) == Eligibles(r, ctx, keys, skip)
  {
    if keys != [] {
      EligiblesSame(st, r, ctx, keys[1..], skip);
    }
  }

  lemma RankedRest(st: Store, r: Store, ctx: Context, keys: seq<PowerKey>)
    requires ctx.Valid() && SameMerits(st, r) && Ranked(st, ctx, keys) && keys != []
    ensures Ranked(r, ctx, keys[1..])
  {
    hide Power;
    forall i | 0 <= i < |keys[1..]|
      ensures Indexes(r, ctx, keys[1..][i])
    {
      assert Indexes(st, ctx, keys[i + 1]);
    }
    forall i, j | 0 <= i < j < |keys[1..]|
      ensures Outranks(keys[1..][i], keys[1..][j])
    {
      assert keys[1..][i] == keys[i + 1] && keys[1..][j] == keys[j + 1];
    }
  }

  /** Behind a key without power nobody is eligible. */
  lemma {:induction false} NoneBehind(st: Store, ctx: Context, keys: seq<PowerKey>, skip: set<Address>)
    requires ctx.Valid() && forall i :: 0 <= i < |keys| ==> Indexes(st, ctx, keys[i]) && keys[i].power <= 0
    ensures Eligibles(st, ctx, keys, skip) == []
  {
    if keys != [] {
      assert Indexes(st, ctx, keys[0]);
      forall i | 0 <= i < |keys[1..]|
        ensures Indexes(st, ctx, keys[1..][i]) && keys[1..][i].power <= 0
      {
        assert keys[1..][i] == keys[i + 1];
      }
      NoneBehind(st, ctx, keys[1..], skip);
    }
  }

  lemma {:induction false} EligiblesDistinct(st: Store, ctx: Context, keys: seq<PowerKey>, skip: set<Address>)
    requires ctx.Valid() && Ranked(st, ctx, keys)
    ensures NoRepeats(Eligibles(st, ctx, keys, skip))
    ensures forall a :: a in Eligibles(st, ctx, keys, skip) ==> exists i :: 0 <= i < |keys| && keys[i].operator == a
  {
    if keys != [] {
      RankedRest(st, st, ctx, keys);
      EligiblesDistinct(st, ctx, keys[1..], skip);
      var rest := Eligibles(st, ctx, keys[1..], skip);
      forall a | a in rest
        ensures a != keys[0].operator && exists i :: 0 <= i < |keys| && keys[i].operator == a
      {
        var i :| 0 <= i < |keys[1..]| && keys[1..][i].operator == a;
        assert keys[i + 1].operator == a;
        RankedOnce(st, ctx, keys, 0, i + 1);
      }
      Prepend(keys[0].operator, rest);
      assert Eligibles(st, ctx, keys, skip) == rest || Eligibles(st, ctx, keys, skip) == [keys[0].operator] + rest;
    }
  }

  lemma Prepend(a: Address, s: seq<Address>)
    requires NoRepeats(s) && a !in s
    ensures NoRepeats([a] + s)
  {
  }

  // ---------- The loop is a filter ----------

  lemma TakeFirst<T>(x: T, s: seq<T>, n: int)
    requires n > 0
    ensures Take([x] + s, n) == [x] + Take(s, n - 1)
  {
  }

  lemma MovesMerits(st: Store, r: Store, v: Validator, powers: map<Address, int>)
    requires v.operator in st.validators && Moves(st, r, v, powers)
    requires
      var w := st.validators[v.operator];
      v.jailed == w.jailed && v.shares == w.shares && v.minSelfDelegation == w.minSelfDelegation && v.operator == w.operator
    ensures SameMerits(st, r)
  {
  }

  /** Leaving on the first validator without power elects the same as filtering all of them, and
      the loop never meets a jailed or missing validator. */
  lemma {:induction false} ElectLoopFilters(e: Election, ctx: Context, keys: seq<PowerKey>, count: nat, base: map<Address, int>)
    requires ctx.Valid() && Tracks(e, ctx, base) && Ranked(e.store, ctx, keys) && NonNegative(e.store)
    requires CanElect(e, ctx, Eligibles(e.store, ctx, keys, {}), base)
    ensures ElectLoop(e, ctx, keys, count) ==
            Ok(ElectAll(e, ctx, Take(Eligibles(e.store, ctx, keys, {}), ctx.maxValidators - count)))
    decreases |keys|
  {
    hide Tracks, CanElect, Moves, Elect, ElectAll, Ranked, Outranks;
    var el := Eligibles(e.store, ctx, keys, {});
    ElectAllNone(e, ctx);
    if keys != [] && count < ctx.maxValidators {
      RankedFirst(e.store, ctx, keys);
      var v := e.store.validators[keys[0].operator];
      SameMeritsSelf(e.store);
      RankedRest(e.store, e.store, ctx, keys);
      if Power(ctx, v.shares) == 0 {
        RankedBehind(e.store, ctx, keys);
        NoneBehind(e.store, ctx, keys, {});
      } else if v.minSelfDelegation < MIN_SELF_DELEGATION {
        ElectLoopFilters(e, ctx, keys[1..], count, base);
      } else {
        var rest := Eligibles(e.store, ctx, keys[1..], {});
        assert el == [v.operator] + rest && el[1..] == rest;
        CanElectFirst(e, ctx, el, base);
        ElectTracks(e, ctx, v, base);
        var s := Elect(e, ctx, v);
        TracksRecords(e, ctx, base);
        CanElectRest(e, ctx, el, base);
        MovesMerits(e.store, s.store, v.(status := Bonded), e.store.lastPowers[v.operator := Power(ctx, v.shares)]);
        EligiblesSame(e.store, s.store, ctx, keys[1..], {});
        RankedRest(e.store, s.store, ctx, keys);
        ElectLoopFilters(s, ctx, keys[1..], count + 1, base);
        TakeFirst(v.operator, rest, ctx.maxValidators - count);
        ElectAllFirst(e, ctx, v.operator, Take(rest, ctx.maxValidators - count - 1));
      }
    }
  }

  lemma SameMeritsSelf(st: Store)
    ensures SameMerits(st, st)
  {
  }

  lemma ElectAllNone(e: Election, ctx: Context)
    requires ctx.Valid()
    ensures ElectAll(e, ctx, []) == e
  {
  }

  lemma ElectAllFirst(e: Election, ctx: Context, a: Address, rest: seq<Address>)
    requires ctx.Valid() && a in e.store.validators
    ensures ElectAll(e, ctx, [a] + rest) == ElectAll(Elect(e, ctx, e.store.validators[a]), ctx, rest)
  {
    assert ([a] + rest)[1..] == rest;
  }

  lemma RankedFirst(st: Store, ctx: Context, keys: seq<PowerKey>)
    requires ctx.Valid() && Ranked(st, ctx, keys) && keys != []
    ensures Indexes(st, ctx, keys[0])
  {
  }

  lemma RankedBehind(st: Store, ctx: Context, keys: seq<PowerKey>)
    requires ctx.Valid() && Ranked(st, ctx, keys) && keys != [] && keys[0].power <= 0
    ensures forall i :: 0 <= i < |keys| ==> Indexes(st, ctx, keys[i]) && keys[i].power <= 0
  {
    forall i | 0 <= i < |keys|
      ensures Indexes(st, ctx, keys[i]) && keys[i].power <= 0
    {
      assert i > 0 ==> Outranks(keys[0], keys[i]);
    }
  }

  // ---------- The election ----------

  lemma TakeKeeps(s: seq<Address>, n: int)
    requires NoRepeats(s)
    ensures NoRepeats(Take(s, n)) && forall a :: a in Take(s, n) ==> a in s
  {
  }

  /** The state of the loop before its first iteration. */
  lemma StartTracks(st: Store, ctx: Context, total: int)
    requires ctx.Valid() && RecordsOk(st) && IndexOk(st, ctx) && QueueOk(st) && LastOk(st)
    ensures Tracks(Election(st, st.lastPowers, [], total), ctx, st.lastPowers)
  {
    hide IndexOk, QueueOk, Sum;
  }

  lemma StartCanElect(st: Store, ctx: Context, skip: set<Address>, total: int)
    requires ctx.Valid() && IndexOk(st, ctx)
    ensures CanElect(Election(st, st.lastPowers, [], total), ctx, Eligibles(st, ctx, Ranking(st), skip), st.lastPowers)
  {
    hide Power, IndexOk, Ranking;
    RankingRanked(st, ctx);
    EligiblesDistinct(st, ctx, Ranking(st), skip);
  }

  lemma CanElectTake(e: Election, ctx: Context, el: seq<Address>, base: map<Address, int>, n: int)
    requires ctx.Valid() && CanElect(e, ctx, el, base)
    ensures CanElect(e, ctx, Take(el, n), base)
  {
    hide Untouched, Power;
    TakeKeeps(el, n);
  }

  lemma SortedDistinct(s: set<Address>)
    ensures NoRepeats(SortedAddresses(s))
  {
    var r := SortedAddresses(s);
    forall i, j | 0 <= i < j < |r|
      ensures r[i] != r[j]
    {
      assert AddressBefore(r[i], r[j]);
    }
  }

  /** After the election every validator left in the copy is bonded and can be retired. */
  lemma LeftoversRetire(st: Store, r: Election, ctx: Context, el: seq<Address>)
    requires ctx.Valid() && LastOk(st) && Bonds(st, r.store, ctx, el) && r.last == st.lastPowers - Members(el)
    requires forall a :: a !in el ==> Untouched(r.updates, a)
    ensures CanRetire(r, SortedAddresses(r.last.Keys))
  {
    hide Sum, Untouched, Power;
    SortedDistinct(r.last.Keys);
  }

  /** A validator's record after the election. */
  function Reelected(v: Validator, ctx: Context, elected: bool): Validator {
    if elected then v.(status := Bonded)
    else if v.status == Bonded then v.(status := Unbonding, unbondingTime := ctx.maturity)
    else v
  }

  /** What the election leaves: the elected are bonded, and only they have a last power. */
  ghost predicate Elects(st: Store, r: Store, ctx: Context, el: seq<Address>)
    requires ctx.Valid()
  {
    && r.validators.Keys == st.validators.Keys
    && (forall a :: a in st.validators ==> r.validators[a] == Reelected(st.validators[a], ctx, a in el))
    && r.lastPowers == PowersOf(st, ctx, el)
    && r == st.(validators := r.validators, queue := r.queue, lastPowers := r.lastPowers, lastTotal := r.lastTotal)
  }

  lemma BondsRetires(st: Store, s: Store, r: Store, ctx: Context, el: seq<Address>, out: seq<Address>)
    requires ctx.Valid() && LastOk(st) && Bonds(st, s, ctx, el) && Retires(s, r, ctx, out)
    requires forall a :: a in out <==> a in st.lastPowers && a !in el
    ensures Elects(st, r, ctx, el) && r.lastTotal == st.lastTotal
  {
    hide Sum, Power;
    forall a | a in st.validators
      ensures r.validators[a] == Reelected(st.validators[a], ctx, a in el)
    {
    }
    assert r.lastPowers.Keys == PowersOf(st, ctx, el).Keys;
    assert r.lastPowers == PowersOf(st, ctx, el);
  }

  /** The first loop elects; the copy of the last powers keeps those to retire. */
  lemma ElectionElects(st: Store, ctx: Context)
    requires ctx.Valid() && RecordsOk(st) && IndexOk(st, ctx) && QueueOk(st) && LastOk(st) && NonNegative(st)
    ensures
      var el := Elected(st, ctx);
      var s := ElectLoop(Election(st, st.lastPowers, [], 0), ctx, Ranking(st), 0);
      && s.Ok? && Tracks(s.value, ctx, st.lastPowers) && Bonds(st, s.value.store, ctx, el)
      && s.value.last == st.lastPowers - Members(el) && s.value.total == Sum(PowersOf(st, ctx, el))
      && (forall a :: a !in el ==> Untouched(s.value.updates, a))
  {
    hide RecordsOk, IndexOk, QueueOk, LastOk, NonNegative, Tracks, CanElect, Bonds, ElectLoop, ElectAll,
      Eligibles, Ranking, Sum, PowersOf, Untouched;
    var base := st.lastPowers;
    var e := Election(st, base, [], 0);
    var all := Eligibles(st, ctx, Ranking(st), {});
    StartTracks(st, ctx, 0);
    StartCanElect(st, ctx, {}, 0);
    RankingRanked(st, ctx);
    ElectLoopFilters(e, ctx, Ranking(st), 0, base);
    CanElectTake(e, ctx, all, base, ctx.maxValidators);
    ElectAllBonds(e, ctx, Elected(st, ctx), base);
    NothingTouched();
  }

  /** ApplyAndReturnValidatorSetUpdates never panics.  It bonds exactly the first eligible
      validators, records their powers and total, and returns exactly the differences. */
  lemma ApplyElects(st: Store, ctx: Context)
    requires ctx.Valid() && RecordsOk(st) && IndexOk(st, ctx) && QueueOk(st) && LastOk(st) && NonNegative(st)
    ensures
      var r := ApplyUpdates(st, ctx);
      && r.Ok?
      && Elects(st, r.value.0, ctx, Elected(st, ctx))
      && RecordsOk(r.value.0) && IndexOk(r.value.0, ctx) && QueueOk(r.value.0) && LastOk(r.value.0)
      && Applied(st.lastPowers, r.value.1) == r.value.0.lastPowers
      && ExactDiff(st.lastPowers, r.value.1)
  {
    hide RecordsOk, IndexOk, QueueOk, LastOk, NonNegative, Tracks, CanRetire, Bonds, Retires, ElectLoop,
      RetireLoop, RetireAll, Elected, Ranking, Sum, PowersOf, Elects, Untouched, SortedAddresses, Applied, ExactDiff;
    var el := Elected(st, ctx);
    ElectionElects(st, ctx);
    var s := ElectLoop(Election(st, st.lastPowers, [], 0), ctx, Ranking(st), 0).value;
    LeftoversRetire(st, s, ctx, el);
    var out := SortedAddresses(s.last.Keys);
    RetireAllRetires(s, ctx, out, st.lastPowers);
    var f := RetireAll(s, ctx, out);
    SortedMembers(st, s, el);
    BondsRetires(st, s.store, f.store, ctx, el, out);
    FinishElection(st, f, ctx, el);
  }

  lemma NothingTouched()
    ensures forall a :: Untouched([], a)
  {
  }

  lemma SortedMembers(st: Store, s: Election, el: seq<Address>)
    requires s.last == st.lastPowers - Members(el)
    ensures forall a :: a in SortedAddresses(s.last.Keys) <==> a in st.lastPowers && a !in el
  {
  }

  /** Writing the total only when there are updates leaves it right in either case. */
  lemma FinishElection(st: Store, f: Election, ctx: Context, el: seq<Address>)
    requires ctx.Valid() && LastOk(st) && Tracks(f, ctx, st.lastPowers) && Elects(st, f.store, ctx, el)
    requires f.total == Sum(PowersOf(st, ctx, el)) && f.store.lastTotal == st.lastTotal
    ensures
      var r := if f.updates == [] then f.store else f.store.(lastTotal := f.total);
      && Elects(st, r, ctx, el) && RecordsOk(r) && IndexOk(r, ctx) && QueueOk(r) && LastOk(r)
      && Applied(st.lastPowers, f.updates) == r.lastPowers && ExactDiff(st.lastPowers, f.updates)
  {
    hide RecordsOk, IndexOk, QueueOk, Sum, PowersOf, ExactDiff;
    var r := if f.updates == [] then f.store else f.store.(lastTotal := f.total);
    TotalFrame(f.store, r, ctx);
  }

  lemma TotalFrame(st: Store, r: Store, ctx: Context)
    requires ctx.Valid() && RecordsOk(st) && IndexOk(st, ctx) && QueueOk(st)
    requires r == st.(lastTotal := r.lastTotal)
    ensures RecordsOk(r) && IndexOk(r, ctx) && QueueOk(r)
  {
    hide Power;
    forall k
      ensures k in r.powerIndex <==> Indexes(r, ctx, k)
    {
      assert k in st.powerIndex <==> Indexes(st, ctx, k);
    }
    forall t, a | t in r.queue && a in r.queue[t]
      ensures Queued(r, t, a)
    {
      assert Queued(st, t, a);
    }
  }

  // ---------- Who is elected ----------

  function RankOf(st: Store, ctx: Context, a: Address): PowerKey
    requires ctx.Valid()
  {
    if a in st.validators then KeyOf(ctx, st.validators[a]) else PowerKey(0, a)
  }

  /** The operators have keys among those given, in ranking order. */
  ghost predicate InOrder(st: Store, ctx: Context, el: seq<Address>, keys: seq<PowerKey>)
    requires ctx.Valid()
  {
    && (forall i, j :: 0 <= i < j < |el| ==> Outranks(RankOf(st, ctx, el[i]), RankOf(st, ctx, el[j])))
    && (forall i :: 0 <= i < |el| ==> RankOf(st, ctx, el[i]) in keys)
  }

  lemma InOrderBehind(st: Store, ctx: Context, el: seq<Address>, keys: seq<PowerKey>)
    requires ctx.Valid() && keys != [] && InOrder(st, ctx, el, keys[1..])
    ensures InOrder(st, ctx, el, keys)
  {
    hide RankOf, Outranks;
    assert forall k :: k in keys[1..] ==> k in keys;
  }

  lemma InOrderFirst(st: Store, ctx: Context, a: Address, el: seq<Address>, keys: seq<PowerKey>)
    requires ctx.Valid() && keys != [] && InOrder(st, ctx, el, keys[1..]) && RankOf(st, ctx, a) == keys[0]
    requires forall k :: k in keys[1..] ==> Outranks(keys[0], k)
    ensures InOrder(st, ctx, [a] + el, keys)
  {
    hide RankOf, Outranks;
    var all := [a] + el;
    forall i, j | 0 <= i < j < |all|
      ensures Outranks(RankOf(st, ctx, all[i]), RankOf(st, ctx, all[j]))
    {
      assert all[j] == el[j - 1] && (i > 0 ==> all[i] == el[i - 1]);
    }
    forall i | 0 <= i < |all|
      ensures RankOf(st, ctx, all[i]) in keys
    {
      assert i > 0 ==> all[i] == el[i - 1] && RankOf(st, ctx, el[i - 1]) in keys[1..];
    }
  }

  lemma {:induction false} EligiblesOrdered(st: Store, ctx: Context, keys: seq<PowerKey>, skip: set<Address>)
    requires ctx.Valid() && Ranked(st, ctx, keys)
    ensures InOrder(st, ctx, Eligibles(st, ctx, keys, skip), keys)
    ensures forall k :: k in keys && Eligible(st, ctx, k.operator) && k.operator !in skip ==>
              k.operator in Eligibles(st, ctx, keys, skip)
  {
    hide Power, Outranks, InOrder, Ranked;
    if keys == [] {
      NoneInOrder(st, ctx);
    } else {
      SameMeritsSelf(st);
      RankedRest(st, st, ctx, keys);
      RankedFirst(st, ctx, keys);
      EligiblesOrdered(st, ctx, keys[1..], skip);
      var rest := Eligibles(st, ctx, keys[1..], skip);
      RankedFirstOutranks(st, ctx, keys);
      InOrderBehind(st, ctx, rest, keys);
      InOrderFirst(st, ctx, keys[0].operator, rest, keys);
    }
  }

  lemma NoneInOrder(st: Store, ctx: Context)
    requires ctx.Valid()
    ensures InOrder(st, ctx, [], [])
  {
  }

  lemma RankedFirstOutranks(st: Store, ctx: Context, keys: seq<PowerKey>)
    requires ctx.Valid() && Ranked(st, ctx, keys) && keys != []
    ensures forall k :: k in keys[1..] ==> Outranks(keys[0], k)
  {
    forall k | k in keys[1..]
      ensures Outranks(keys[0], k)
    {
      var i :| 0 <= i < |keys[1..]| && keys[1..][i] == k;
      assert Outranks(keys[0], keys[i + 1]);
    }
  }

  /** The first n of the eligible validators outside skip: distinct, and any eligible one left out
      lost against n others, every one of which outranks it. */
  ghost predicate Top(st: Store, ctx: Context, top: seq<Address>, n: nat, skip: set<Address>)
    requires ctx.Valid()
  {
    && NoRepeats(top) && |top| <= n
    && (forall a :: a in top ==> Eligible(st, ctx, a) && a !in skip)
    && (forall b :: Eligible(st, ctx, b) && b !in skip && b !in top ==>
          |top| == n && forall a :: a in top ==> Outranks(RankOf(st, ctx, a), RankOf(st, ctx, b)))
  }

  /** The elected are exactly the best eligible validators. */
  lemma ElectedAreTop(st: Store, ctx: Context)
    requires ctx.Valid() && RecordsOk(st) && IndexOk(st, ctx)
    ensures Top(st, ctx, Elected(st, ctx), ctx.maxValidators, {})
  {
    FirstAreTop(st, ctx, ctx.maxValidators, {});
  }

  lemma FirstAreTop(st: Store, ctx: Context, n: nat, skip: set<Address>)
    requires ctx.Valid() && RecordsOk(st) && IndexOk(st, ctx)
    ensures Top(st, ctx, Take(Eligibles(st, ctx, Ranking(st), skip), n), n, skip)
  {
    hide Outranks, IndexOk, Ranking, RecordsOk, Eligibles, Eligible, RankOf;
    var keys := Ranking(st);
    var el := Eligibles(st, ctx, keys, skip);
    RankingRanked(st, ctx);
    EligiblesOrdered(st, ctx, keys, skip);
    EligiblesDistinct(st, ctx, keys, skip);
    TakeKeeps(el, n);
    var top := Take(el, n);
    forall b | Eligible(st, ctx, b) && b !in skip && b !in top
      ensures |top| == n && forall a :: a in top ==> Outranks(RankOf(st, ctx, a), RankOf(st, ctx, b))
    {
      EligibleRanked(st, ctx, b);
      LeftOut(st, ctx, el, keys, n, b);
    }
  }

  lemma LeftOut(st: Store, ctx: Context, el: seq<Address>, keys: seq<PowerKey>, n: nat, b: Address)
    requires ctx.Valid() && InOrder(st, ctx, el, keys) && b in el && b !in Take(el, n)
    ensures |Take(el, n)| == n && forall a :: a in Take(el, n) ==> Outranks(RankOf(st, ctx, a), RankOf(st, ctx, b))
  {
    hide Outranks, RankOf;
    var top := Take(el, n);
    assert n == |top| < |el|;
    assert forall m :: 0 <= m < |top| ==> el[m] == top[m];
    var j :| 0 <= j < |el| && el[j] == b;
  }

  lemma EligibleRanked(st: Store, ctx: Context, b: Address)
    requires ctx.Valid() && RecordsOk(st) && IndexOk(st, ctx) && Eligible(st, ctx, b)
    ensures exists k :: k in Ranking(st) && k.operator == b
  {
    hide Power;
    assert RecordOk(st.validators[b], b);
    var k := KeyOf(ctx, st.validators[b]);
    assert Indexes(st, ctx, k);
    assert k in Ranking(st) && k.operator == b;
  }
}
