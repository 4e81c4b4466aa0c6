/** The validator set: status transitions, the epoch election, the mid-epoch kick-out and the
    end of a block. */
module ValidatorSet {
  import opened EvmTypes
  import opened Coins
  import opened Sorting
  import opened StakingStore

  /** A change of the consensus validator set; power 0 removes. */
  datatype Update = Update(operator: Address, power: int)

  /** The order of the power index read backwards: higher power first, then lower address. */
  predicate Outranks(k: PowerKey, l: PowerKey) {
    k.power > l.power || (k.power == l.power && k.operator < l.operator)
  }

  predicate TimeBefore(k: TimeKey, l: TimeKey) {
    k.time < l.time || (k.time == l.time && k.delegator < l.delegator)
  }

  predicate Less(x: int, y: int) {
    x < y
  }

  predicate AddressBefore(x: Address, y: Address) {
    x < y
  }

  function Ranking(st: Store): (r: seq<PowerKey>)
    ensures |r| == |st.powerIndex| && forall k :: k in r <==> k in st.powerIndex
    ensures forall i, j :: 0 <= i < j < |r| ==> Outranks(r[i], r[j])
  {
    assert StrictTotal(Outranks);
    Sorted(st.powerIndex, Outranks)
  }

  // ---------- Status transitions ----------

  /** InsertValidatorQueue. */
  function Enqueue(queue: map<Time, seq<Address>>, t: Time, a: Address): map<Time, seq<Address>> {
    queue[t := (if t in queue then queue[t] else []) + [a]]
  }

  function Without(s: seq<Address>, a: Address): (r: seq<Address>)
    ensures forall b :: b in r <==> b in s && b != a
    ensures NoRepeats(s) ==> NoRepeats(r)
  {
    if s == [] then []
    else
      var rest := Without(s[1..], a);
      assert NoRepeats(s) ==> s[0] !in s[1..];
      if s[0] == a then rest else [s[0]] + rest
  }

  /** DeleteValidatorQueue. */
  function Dequeue(queue: map<Time, seq<Address>>, t: Time, a: Address): map<Time, seq<Address>> {
    var slice := Without(if t in queue then queue[t] else [], a);
    if slice == [] then queue - {t} else queue[t := slice]
  }

  /** bondValidator. */
  function BondValidator(st: Store, ctx: Context, v: Validator): Store
    requires ctx.Valid()
  {
    var v' := v.(status := Bonded);
    var st1 := SetIndex(SetValidator(DeleteIndex(st, ctx, v), v'), ctx, v');
    st1.(queue := Dequeue(st1.queue, v'.unbondingTime, v'.operator))
  }

  /** beginUnbondingValidator. */
  function BeginUnbonding(st: Store, ctx: Context, v: Validator): Store
    requires ctx.Valid()
  {
    var v' := v.(status := Unbonding, unbondingTime := ctx.maturity);
    var st1 := SetIndex(SetValidator(DeleteIndex(st, ctx, v), v'), ctx, v');
    st1.(queue := Enqueue(st1.queue, v'.unbondingTime, v'.operator))
  }

  function SetPower(st: Store, a: Address, power: int): Store {
    st.(lastPowers := st.lastPowers[a := power])
  }

  function DeletePower(st: Store, a: Address): Store {
    st.(lastPowers := st.lastPowers - {a})
  }

  const MIN_SELF_DELEGATION: nat := 1000 * ONE

  // ---------- The election ----------

  /** The variables of the loops that change the validator set: the store, a copy of the last
      powers, the updates so far and the total power. */
  datatype Election = Election(store: Store, last: map<Address, int>, updates: seq<Update>, total: int)

  /** Elect a validator: bond it and record its power if that has changed. */
  function Elect(e: Election, ctx: Context, v: Validator): Election
    requires ctx.Valid()
  {
    var power := Power(ctx, v.shares);
    var st := if v.status == Bonded then e.store else BondValidator(e.store, ctx, v);
    var changed := v.operator !in e.last || e.last[v.operator] != power;
    Election(if changed then SetPower(st, v.operator, power) else st,
             e.last - {v.operator},
             if changed then e.updates + [Update(v.operator, power)] else e.updates,
             e.total + power)
  }

  /** The loop of ApplyAndReturnValidatorSetUpdates over the ranking. */
  function ElectLoop(e: Election, ctx: Context, keys: seq<PowerKey>, count: nat): Outcome<Election>
    requires ctx.Valid()
    decreases |keys|
  {
    if keys == [] || count >= ctx.maxValidators then Ok(e)
    else if keys[0].operator !in e.store.validators || e.store.validators[keys[0].operator].jailed then Panic
    else
      var v := e.store.validators[keys[0].operator];
      if Power(ctx, v.shares) == 0 then Ok(e)
      else if v.minSelfDelegation < MIN_SELF_DELEGATION then ElectLoop(e, ctx, keys[1..], count)
      else ElectLoop(Elect(e, ctx, v), ctx, keys[1..], count + 1)
  }

  /** Bonded to unbonding, with a zero-power update. */
  function Retire(e: Election, ctx: Context, v: Validator): Election
    requires ctx.Valid()
  {
    e.(store := DeletePower(BeginUnbonding(e.store, ctx, v), v.operator), updates := e.updates + [Update(v.operator, 0)])
  }

  /** The loop over the validators that are no longer bonded. */
  function RetireLoop(e: Election, ctx: Context, leaving: seq<Address>): Outcome<Election>
    requires ctx.Valid()
    decreases |leaving|
  {
    if leaving == [] then Ok(e)
    else if leaving[0] !in e.store.validators || e.store.validators[leaving[0]].status != Bonded then Panic
    else RetireLoop(Retire(e, ctx, e.store.validators[leaving[0]]), ctx, leaving[1..])
  }

  function SortedAddresses(s: set<Address>): (r: seq<Address>)
    ensures |r| == |s| && forall a :: a in r <==> a in s
    ensures forall i, j :: 0 <= i < j < |r| ==> AddressBefore(r[i], r[j])
  {
    assert StrictTotal(AddressBefore);
    Sorted(s, AddressBefore)
  }

  /** ApplyAndReturnValidatorSetUpdates. */
  function ApplyUpdates(st: Store, ctx: Context): Outcome<(Store, seq<Update>)>
    requires ctx.Valid()
  {
    var e := ElectLoop(Election(st, st.lastPowers, [], 0), ctx, Ranking(st), 0);
    if e.Panic? then Panic
    else
      var r := RetireLoop(e.value, ctx, SortedAddresses(e.value.last.Keys));
      if r.Panic? then Panic
      else if r.value.updates == [] then Ok((r.value.store, []))
      else Ok((r.value.store.(lastTotal := r.value.total), r.value.updates))
  }

  // ---------- The kick-out ----------

  /** Promote a candidate: the copy of the last powers stays as it is. */
  function Promote(e: Election, ctx: Context, v: Validator): Election
    requires ctx.Valid()
  {
    var power := Power(ctx, v.shares);
    e.(store := SetPower(BondValidator(e.store, ctx, v), v.operator, power),
       updates := e.updates + [Update(v.operator, power)],
       total := e.total + power)
  }

  /** The loop that promotes candidates in place of the abandoned validators. */
  function PromoteLoop(e: Election, ctx: Context, keys: seq<PowerKey>, vacancies: nat): Outcome<Election>
    requires ctx.Valid()
    decreases |keys|
  {
    if keys == [] || vacancies == 0 then Ok(e)
    else if keys[0].operator in e.last then PromoteLoop(e, ctx, keys[1..], vacancies)
    else if keys[0].operator !in e.store.validators then Panic
    else
      var v := e.store.validators[keys[0].operator];
      if Power(ctx, v.shares) == 0 || v.minSelfDelegation < MIN_SELF_DELEGATION then
        PromoteLoop(e, ctx, keys[1..], vacancies)
      else if v.status == Bonded then Panic
      else PromoteLoop(Promote(e, ctx, v), ctx, keys[1..], vacancies - 1)
  }

  /** The loop that discharges the abandoned validators. */
  function DischargeLoop(e: Election, ctx: Context, leaving: seq<Address>): Outcome<Election>
    requires ctx.Valid()
    decreases |leaving|
  {
    if leaving == [] then Ok(e)
    else if leaving[0] !in e.store.validators then Panic
    else
      var v := e.store.validators[leaving[0]];
      if v.status != Bonded then DischargeLoop(e, ctx, leaving[1..])
      else if leaving[0] !in e.last then Panic
      else DischargeLoop(Retire(e, ctx, v).(total := e.total - e.last[leaving[0]]), ctx, leaving[1..])
  }

  /** KickOutAndReturnValidatorSetUpdates. */
  function KickOut(st: Store, ctx: Context): Outcome<(Store, seq<Update>)>
    requires ctx.Valid()
  {
    var p := PromoteLoop(Election(st, st.lastPowers, [], st.lastTotal), ctx, Ranking(st), |st.abandoned|);
    if p.Panic? then Panic
    else
      var d := DischargeLoop(p.value, ctx, st.abandoned);
      if d.Panic? then Panic
      else Ok((d.value.store.(lastTotal := d.value.total), d.value.updates))
  }

  // ---------- Maturing ----------

  /** The validators of one time slice of the unbonding queue. */
  function MatureSlice(st: Store, ctx: Context, slice: seq<Address>): Outcome<Store>
    requires ctx.Valid()
    decreases |slice|
  {
    if slice == [] then Ok(st)
    else
      var a := slice[0];
      if a !in st.validators || st.validators[a].status != Unbonding then Panic
      else MatureSlice(MatureOne(st, ctx, st.validators[a]), ctx, slice[1..])
  }

  function MatureOne(st: Store, ctx: Context, v: Validator): Store
    requires ctx.Valid()
  {
    var st1 := SetValidator(st, v.(status := Unbonded));
    if v.shares == 0 && v.minSelfDelegation == 0 then RemoveValidator(st1, ctx, v.operator) else st1
  }

  function MatureLoop(st: Store, ctx: Context, times: seq<Time>): Outcome<Store>
    requires ctx.Valid()
    decreases |times|
  {
    if times == [] then Ok(st)
    else
      var t := times[0];
      var r := MatureSlice(st, ctx, if t in st.queue then st.queue[t] else []);
      if r.Panic? then Panic else MatureLoop(r.value.(queue := r.value.queue - {t}), ctx, times[1..])
  }

  function MatureTimes(st: Store, ctx: Context): (r: seq<Time>)
    ensures forall t :: t in r <==> t in st.queue && t <= ctx.now
    ensures forall i, j :: 0 <= i < j < |r| ==> r[i] < r[j]
  {
    assert StrictTotal(Less);
    var r := Sorted((set t | t in st.queue && t <= ctx.now), Less);
    assert forall i, j :: 0 <= i < j < |r| ==> Less(r[i], r[j]);
    r
  }

  /** UnbondAllMatureValidatorQueue. */
  function UnbondAllMature(st: Store, ctx: Context): Outcome<Store>
    requires ctx.Valid()
  {
    MatureLoop(st, ctx, MatureTimes(st, ctx))
  }

  /** CompleteUndelegation after its time key is deleted; an error leaves the record. */
  function Complete(st: Store, k: TimeKey): Store {
    var st1 := st.(timeKeys := st.timeKeys - {k});
    if k.delegator !in st1.undelegations || st1.notBonded < st1.undelegations[k.delegator].quantity then st1
    else
      var q := st1.undelegations[k.delegator].quantity;
      st1.(notBonded := st1.notBonded - q,
           balances := st1.balances[k.delegator := BalanceOf(st1, k.delegator) + q],
           undelegations := st1.undelegations - {k.delegator})
  }

  function CompleteLoop(st: Store, keys: seq<TimeKey>): Store
    decreases |keys|
  {
    if keys == [] then st else CompleteLoop(Complete(st, keys[0]), keys[1..])
  }

  function MatureKeys(st: Store, ctx: Context): (r: seq<TimeKey>)
    ensures forall k :: k in r <==> k in st.timeKeys && k.time <= ctx.now
    ensures forall i, j :: 0 <= i < j < |r| ==> TimeBefore(r[i], r[j])
  {
    assert StrictTotal(TimeBefore);
    Sorted((set k | k in st.timeKeys && k.time <= ctx.now), TimeBefore)
  }

  // ---------- EndBlocker ----------

  /** The change of the validator set at the end of a block. */
  function EndOfSet(st: Store, ctx: Context, endOfEpoch: bool): Outcome<(Store, seq<Update>)>
    requires ctx.Valid()
  {
    if !endOfEpoch && st.abandoned == [] then Ok((st, []))
    else
      var r := if endOfEpoch then ApplyUpdates(st, ctx) else KickOut(st, ctx);
      if r.Panic? then Panic else Ok((r.value.0.(abandoned := []), r.value.1))
  }

  function EndBlock(st: Store, ctx: Context, endOfEpoch: bool): Outcome<(Store, seq<Update>)>
    requires ctx.Valid()
  {
    var r := EndOfSet(st, ctx, endOfEpoch);
    if r.Panic? then Panic
    else
      var m := UnbondAllMature(r.value.0, ctx);
      if m.Panic? then Panic
      else Ok((CompleteLoop(m.value, MatureKeys(m.value, ctx)), r.value.1))
  }
}
