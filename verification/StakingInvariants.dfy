/** The invariants of the staking store, those the program registers and those they rest on. */
module StakingInvariants {
  import opened EvmTypes
  import opened Coins
  import opened Sums
  import opened StakingStore

  // ---------- Validators, power index, bonded set, queue ----------

  /** Every record sits under its operator; only destroyed validators lack a self delegation. */
  ghost predicate RecordsOk(st: Store) {
    forall a :: a in st.validators ==> RecordOk(st.validators[a], a)
  }

  ghost predicate RecordOk(v: Validator, a: Address) {
    v.operator == a && (v.minSelfDelegation == 0 ==> v.jailed)
  }

  /** The power index holds exactly one key per unjailed validator, computed from its shares. */
  ghost predicate IndexOk(st: Store, ctx: Context)
    requires ctx.Valid()
  {
    forall k :: k in st.powerIndex <==> Indexes(st, ctx, k)
  }

  ghost predicate Indexes(st: Store, ctx: Context, k: PowerKey)
    requires ctx.Valid()
  {
    && k.operator in st.validators
    && !st.validators[k.operator].jailed
    && k == KeyOf(ctx, st.validators[k.operator])
  }

  /** A validator is bonded exactly when it has a last power, and the total is their sum. */
  ghost predicate LastOk(st: Store) {
    && (forall a :: a in st.lastPowers <==> a in st.validators && st.validators[a].status == Bonded)
    && st.lastTotal == Sum(st.lastPowers)
  }

  /** A validator is queued, once and at its own completion time, exactly when it is unbonding. */
  ghost predicate QueueOk(st: Store) {
    && (forall t :: t in st.queue ==> st.queue[t] != [] && NoRepeats(st.queue[t]))
    && (forall t, a :: t in st.queue && a in st.queue[t] ==> Queued(st, t, a))
    && (forall a :: a in st.validators && st.validators[a].status == Unbonding ==>
          st.validators[a].unbondingTime in st.queue && a in st.queue[st.validators[a].unbondingTime])
  }

  ghost predicate Queued(st: Store, t: Time, a: Address) {
    a in st.validators && st.validators[a].status == Unbonding && st.validators[a].unbondingTime == t
  }

  /** Validators waiting to be kicked out are distinct, bonded and destroyed. */
  ghost predicate AbandonedOk(st: Store) {
    NoRepeats(st.abandoned) && forall a :: a in st.abandoned ==> Abandons(st, a)
  }

  ghost predicate Abandons(st: Store, a: Address) {
    a in st.validators && st.validators[a].status == Bonded && st.validators[a].minSelfDelegation == 0
  }

  ghost predicate ValidatorsOk(st: Store, ctx: Context)
    requires ctx.Valid()
  {
    RecordsOk(st) && IndexOk(st, ctx) && LastOk(st) && QueueOk(st) && AbandonedOk(st)
  }

  // ---------- Shares ----------

  /** The share entries of one validator. */
  ghost function Entries(shares: map<ShareKey, int>, a: Address): map<ShareKey, int> {
    map k | k in shares && k.validator == a :: shares[k]
  }

  ghost function ShareSum(shares: map<ShareKey, int>, a: Address): int {
    Sum(Entries(shares, a))
  }

  function SelfShare(v: Validator): int {
    if v.Destroyed() then 0 else ONE
  }

  /** DelegatorAddSharesInvariant for one validator. */
  ghost predicate SharesAt(st: Store, a: Address)
    requires a in st.validators
  {
    st.validators[a].shares == ShareSum(st.shares, a) + SelfShare(st.validators[a])
  }

  ghost predicate ShareTotalsOk(st: Store) {
    forall a :: a in st.validators ==> SharesAt(st, a)
  }

  /** An entry as the program reads it: absent counts as zero. */
  function ShareAt(shares: map<ShareKey, int>, k: ShareKey): int {
    if k in shares then shares[k] else 0
  }

  /** The shares a delegator has on a validator according to its own record. */
  function Recorded(st: Store, k: ShareKey): int {
    if k.validator in st.validators && k.delegator in st.delegators && k.validator in st.delegators[k.delegator].validators
    then st.delegators[k.delegator].shares else 0
  }

  /** Every entry is the delegator's recorded shares on a listed validator that exists, and zero
      otherwise. */
  ghost predicate EntriesOk(st: Store) {
    forall k :: ShareAt(st.shares, k) == Recorded(st, k)
  }

  ghost predicate ListOk(d: Delegator) {
    NoRepeats(d.validators) && d.shares >= 0 && (d.validators == [] ==> d.shares == 0)
  }

  ghost predicate ListsOk(st: Store) {
    forall a :: a in st.delegators ==> ListOk(st.delegators[a])
  }

  ghost predicate SharesOk(st: Store) {
    ShareTotalsOk(st) && EntriesOk(st) && ListsOk(st)
  }

  /** No delegator with shares still lists the address of a validator that is gone. */
  predicate Unclaimed(st: Store, a: Address) {
    forall d :: d in st.delegators && a in st.delegators[d].validators ==> st.delegators[d].shares == 0
  }

  // ---------- Delegators and proxies ----------

  ghost predicate DelegatorOk(st: Store, a: Address)
    requires a in st.delegators
  {
    var d := st.delegators[a];
    && d.tokens > 0
    && (!d.isProxy ==> d.totalDelegated == 0)
    && (d.proxy.Some? ==>
          && !d.isProxy && d.shares == 0
          && d.proxy.value in st.delegators && st.delegators[d.proxy.value].isProxy)
  }

  /** The tokens of the delegators bound to a proxy. */
  ghost function BoundTokens(ds: map<Address, Delegator>, proxy: Address): map<Address, int> {
    map a | a in ds && ds[a].proxy == Some(proxy) :: ds[a].tokens
  }

  ghost predicate ProxyTotalOk(st: Store, a: Address)
    requires a in st.delegators
  {
    st.delegators[a].totalDelegated == Sum(BoundTokens(st.delegators, a))
  }

  ghost predicate BindingsOk(st: Store) {
    forall b :: b in st.bindings <==> Binds(st, b)
  }

  ghost predicate Binds(st: Store, b: Binding) {
    b.delegator in st.delegators && st.delegators[b.delegator].proxy == Some(b.proxy)
  }

  ghost predicate DelegatorsOk(st: Store) {
    && (forall a :: a in st.delegators ==> DelegatorOk(st, a))
    && (forall a :: a in st.delegators ==> ProxyTotalOk(st, a))
    && BindingsOk(st)
  }

  // ---------- Pools and undelegations ----------

  ghost function SelfDelegations(vs: map<Address, Validator>): map<Address, int> {
    map a | a in vs :: vs[a].minSelfDelegation as int
  }

  ghost function Tokens(ds: map<Address, Delegator>): map<Address, int> {
    map a | a in ds :: ds[a].tokens
  }

  ghost function Quantities(us: map<Address, Undelegation>): map<Address, int> {
    map a | a in us :: us[a].quantity
  }

  /** ModuleAccountInvariantsCustom. */
  ghost predicate PoolsOk(st: Store) {
    && st.bonded == Sum(SelfDelegations(st.validators)) + Sum(Tokens(st.delegators))
    && st.notBonded == Sum(Quantities(st.undelegations))
  }

  /** Undelegations are positive, and their time keys are exactly their completion times. */
  ghost predicate UndelegationsOk(st: Store) {
    && (forall a :: a in st.undelegations ==> st.undelegations[a].quantity > 0)
    && (forall k :: k in st.timeKeys <==> Keyed(st, k))
  }

  ghost predicate Keyed(st: Store, k: TimeKey) {
    k.delegator in st.undelegations && st.undelegations[k.delegator].completion == k.time
  }

  /** The whole invariant. */
  ghost predicate Inv(st: Store, ctx: Context)
    requires ctx.Valid()
  {
    ValidatorsOk(st, ctx) && SharesOk(st) && DelegatorsOk(st) && PoolsOk(st) && UndelegationsOk(st)
  }

  // ---------- What share operations leave alone ----------

  /** Share operations change only shares of validators, and remove only destroyed unbonded ones. */
  ghost predicate Reshares(st: Store, r: Store) {
    && (forall a :: a in r.validators ==>
          a in st.validators && r.validators[a] == st.validators[a].(shares := r.validators[a].shares))
    && (forall a :: a in st.validators && a !in r.validators ==>
          st.validators[a].status == Unbonded && st.validators[a].minSelfDelegation == 0)
    && r == st.(validators := r.validators, powerIndex := r.powerIndex, shares := r.shares, delegators := r.delegators)
  }

  /** No validator appears, and those that stay keep their status and unbonding time. */
  ghost predicate StatusKept(vs: map<Address, Validator>, vs': map<Address, Validator>) {
    forall a :: a in vs' ==>
      a in vs && vs'[a].status == vs[a].status && vs'[a].unbondingTime == vs[a].unbondingTime
  }

  lemma ResharesStatus(st: Store, r: Store)
    requires Reshares(st, r)
    ensures StatusKept(st.validators, r.validators)
  {
  }

  lemma StatusKeptBoth(x: map<Address, Validator>, y: map<Address, Validator>, z: map<Address, Validator>)
    requires StatusKept(x, y) && StatusKept(y, z)
    ensures StatusKept(x, z)
  {
  }

  lemma ResharesTransitive(x: Store, y: Store, z: Store)
    requires Reshares(x, y) && Reshares(y, z)
    ensures Reshares(x, z)
  {
  }

  lemma ResharesKeeps(st: Store, r: Store)
    requires RecordsOk(st) && LastOk(st) && QueueOk(st) && AbandonedOk(st) && Reshares(st, r)
    ensures RecordsOk(r) && LastOk(r) && QueueOk(r) && AbandonedOk(r)
  {
  }

  lemma {:induction false} SumZeros<K>(m: map<K, int>, n: map<K, int>)
    requires n.Keys <= m.Keys && (forall k :: k in n ==> n[k] == m[k])
    requires forall k :: k in m && k !in n ==> m[k] == 0
    ensures Sum(m) == Sum(n)
    decreases |m|
  {
    if m.Keys == n.Keys {
      assert m == n;
    } else {
      var k :| k in m && k !in n;
      SumPick(m, k);
      SumZeros(m - {k}, n);
    }
  }

  lemma ResharesPools(st: Store, r: Store)
    requires Reshares(st, r)
    ensures Sum(SelfDelegations(r.validators)) == Sum(SelfDelegations(st.validators))
  {
    SumZeros(SelfDelegations(st.validators), SelfDelegations(r.validators));
  }

  // ---------- Share sums ----------

  lemma EntriesUpdate(shares: map<ShareKey, int>, k: ShareKey, v: int, a: Address)
    ensures ShareSum(shares[k := v], a) ==
            ShareSum(shares, a) + if k.validator != a then 0 else v - (if k in shares then shares[k] else 0)
  {
    var e := Entries(shares, a);
    if k.validator == a {
      SumUpdate(e, k, v);
      assert Entries(shares[k := v], a) == e[k := v];
    } else {
      assert Entries(shares[k := v], a) == e;
    }
  }

  lemma EntriesRemove(shares: map<ShareKey, int>, k: ShareKey, a: Address)
    ensures ShareSum(shares - {k}, a) ==
            ShareSum(shares, a) - if k.validator != a || k !in shares then 0 else shares[k]
  {
    var e := Entries(shares, a);
    if k.validator == a {
      SumRemove(e, k);
      assert Entries(shares - {k}, a) == e - {k};
    } else {
      assert Entries(shares - {k}, a) == e;
    }
  }

  /** Without negative entries, a zero sum means that all are zero. */
  lemma NoEntries(shares: map<ShareKey, int>, a: Address, k: ShareKey)
    requires ShareSum(shares, a) == 0 && (forall j :: ShareAt(shares, j) >= 0)
    ensures k.validator == a ==> ShareAt(shares, k) == 0
  {
    var e := Entries(shares, a);
    forall j | j in e
      ensures e[j] >= 0
    {
      assert ShareAt(shares, j) >= 0;
    }
    SumNonNegative(e);
    assert k in shares && k.validator == a ==> k in e;
  }
}
