/** A run in week 26, when a single unit of tokens weighs half a unit and rounds to nothing: a
    validator is removed while a delegator still lists it, comes back, and the registered
    delegator-add-shares invariant fails. */
module StakingWitness {
  import opened EvmTypes
  import opened Coins
  import opened Sums
  import opened StakingStore
  import opened StakingInvariants
  import opened StakingRuns

  const HALF: nat := 500_000_000_000_000_000

  /** Week 26 of 52: the decimal weight is one half. */
  const WEEK26 := Context(21, 30, 1, ONE, 0, 100, 100, HALF)

  function Val(a: Address, shares: int): Validator {
    Validator(a, false, Unbonded, shares, 500 * ONE, 0)
  }

  function Del(list: seq<Address>, shares: int, tokens: int): Delegator {
    Delegator(list, shares, tokens, false, 0, None)
  }

  /** The store in terms of the few fields the run changes. */
  function At(validators: map<Address, Validator>, index: set<PowerKey>, shares: map<ShareKey, int>,
              delegators: map<Address, Delegator>, undelegations: map<Address, Undelegation>, timeKeys: set<TimeKey>,
              bonded: int, notBonded: int, b1: int, b2: int, b9: int): Store {
    Store(validators, index, map[], 0, map[], [], shares, delegators, {}, undelegations, timeKeys, bonded, notBonded,
          map[1 := b1, 2 := b2, 9 := b9])
  }

  const K1 := PowerKey(1, 1)
  const K2 := PowerKey(1, 2)
  const E1 := ShareKey(1, 9)
  const E2 := ShareKey(2, 9)

  const S0 := At(map[], {}, map[], map[], map[], {}, 0, 0, 1000 * ONE, 500 * ONE, 3 * ONE)
  const S1 := At(map[1 := Val(1, ONE)], {K1}, map[], map[], map[], {}, 500 * ONE, 0, 500 * ONE, 500 * ONE, 3 * ONE)
  const S2 := At(map[1 := Val(1, ONE), 2 := Val(2, ONE)], {K1, K2}, map[], map[], map[], {},
                 1000 * ONE, 0, 500 * ONE, 0, 3 * ONE)
  const S3 := At(map[1 := Val(1, ONE), 2 := Val(2, ONE)], {K1, K2}, map[], map[9 := Del([], 0, ONE)], map[], {},
                 1001 * ONE, 0, 500 * ONE, 0, 2 * ONE)
  const S4 := At(map[1 := Val(1, ONE + HALF), 2 := Val(2, ONE + HALF)], {K1, K2}, map[E1 := HALF, E2 := HALF],
                 map[9 := Del([1, 2], HALF, ONE)], map[], {}, 1001 * ONE, 0, 500 * ONE, 0, 2 * ONE)
  const S5 := At(map[1 := Val(1, ONE), 2 := Val(2, ONE)], {K1, K2}, map[E1 := 0, E2 := 0],
                 map[9 := Del([1, 2], 0, 1)], map[9 := Undelegation(ONE - 1, 100)], {TimeKey(100, 9)},
                 1000 * ONE + 1, ONE - 1, 500 * ONE, 0, 2 * ONE)
  const S6 := At(map[2 := Val(2, ONE)], {K2}, map[E1 := 0, E2 := 0],
                 map[9 := Del([1, 2], 0, 1)], map[9 := Undelegation(ONE - 1, 100), 1 := Undelegation(500 * ONE, 100)],
                 {TimeKey(100, 9), TimeKey(100, 1)}, 500 * ONE + 1, 501 * ONE - 1, 500 * ONE, 0, 2 * ONE)
  const S7 := S6.(validators := map[2 := Val(2, ONE + HALF)], shares := map[E1 := 0, E2 := HALF],
                  delegators := map[9 := Del([1, 2], HALF, ONE + 1)], bonded := 501 * ONE + 1,
                  balances := map[1 := 500 * ONE, 2 := 0, 9 := ONE])
  const S8 := S7.(validators := map[1 := Val(1, ONE), 2 := Val(2, ONE + HALF)], powerIndex := {K1, K2},
                  bonded := 1001 * ONE + 1, balances := map[1 := 0, 2 := 0, 9 := ONE])
  const S9 := S8.(validators := map[1 := Val(1, ONE + HALF), 2 := Val(2, 2 * ONE)], powerIndex := {K1, PowerKey(2, 2)},
                  shares := map[E1 := ONE, E2 := ONE], delegators := map[9 := Del([1, 2], ONE, 2 * ONE + 1)],
                  bonded := 1002 * ONE + 1, balances := map[1 := 0, 2 := 0, 9 := 0])

  lemma Weights()
    ensures WEEK26.Valid() && !WEEK26.Weighs()
    ensures Weigh(WEEK26, ONE) == HALF && Weigh(WEEK26, 1) == 0
    ensures Weigh(WEEK26, ONE + 1) == HALF && Weigh(WEEK26, 2 * ONE + 1) == ONE
    ensures Power(WEEK26, 0) == 0 && Power(WEEK26, ONE) == 1 && Power(WEEK26, ONE + HALF) == 1 && Power(WEEK26, 2 * ONE) == 2
  {
  }

  lemma Created(st: Store, a: Address)
    requires WEEK26.Valid() && a !in st.validators && BalanceOf(st, a) >= 500 * ONE && PowerKey(0, a) !in st.powerIndex
    ensures CreateValidator(st, WEEK26, a, 500 * ONE) ==
            Some(st.(validators := st.validators[a := Val(a, ONE)], powerIndex := st.powerIndex + {PowerKey(1, a)},
                     bonded := st.bonded + 500 * ONE, balances := st.balances[a := BalanceOf(st, a) - 500 * ONE]))
  {
    hide Reweigh, Power;
    Weights();
    var v := Validator(a, false, Unbonded, 0, 500 * ONE, 0);
    var b := Bond(SetIndex(SetValidator(st, v), WEEK26, v), a, 500 * ONE).value;
    Reweighs(b, v, ONE, PowerKey(0, a), PowerKey(1, a));
    assert st.powerIndex + {PowerKey(0, a)} - {PowerKey(0, a)} == st.powerIndex;
    assert st.validators[a := v][a := Val(a, ONE)] == st.validators[a := Val(a, ONE)];
  }

  lemma Step1()
    ensures Handle(S0, WEEK26, MsgCreateValidator(1, 500 * ONE)) == Some(S1)
  {
    hide CreateValidator;
    Weights();
    Created(S0, 1);
    assert S0.balances[1 := 500 * ONE] == S1.balances;
    assert S0.powerIndex + {K1} == S1.powerIndex;
  }

  lemma Step2()
    ensures Handle(S1, WEEK26, MsgCreateValidator(2, 500 * ONE)) == Some(S2)
  {
    hide CreateValidator;
    Weights();
    Created(S1, 2);
    assert S1.balances[2 := 0] == S2.balances;
    assert S1.powerIndex + {K2} == S2.powerIndex;
    assert S1.validators[2 := Val(2, ONE)] == S2.validators;
  }

  lemma Step3()
    ensures Handle(S2, WEEK26, MsgDeposit(9, ONE)) == Some(S3)
  {
    Weights();
    var r := Deposit(S2, WEEK26, 9, ONE).value;
    assert r.balances == S3.balances;
  }

  // ---------- Loops over one and two validators ----------

  lemma Reweighs(st: Store, v: Validator, shares: int, key: PowerKey, key': PowerKey)
    requires WEEK26.Valid() && !v.jailed && key == KeyOf(WEEK26, v) && key' == KeyOf(WEEK26, v.(shares := shares))
    ensures Reweigh(st, WEEK26, v, shares) ==
            st.(validators := st.validators[v.operator := v.(shares := shares)], powerIndex := st.powerIndex - {key} + {key'})
  {
  }

  lemma ReadBoth(st: Store)
    requires 1 in st.validators && 2 in st.validators
    ensures Existing(st, [1, 2]) == [st.validators[1], st.validators[2]]
  {
    assert [1, 2][1..] == [2] && [2][1..] == [];
    assert Existing(st, []) == [];
    assert Existing(st, [2]) == [st.validators[2]];
  }

  lemma ReadSecond(st: Store)
    requires 1 !in st.validators && 2 in st.validators
    ensures Existing(st, [1, 2]) == [st.validators[2]]
  {
    assert [1, 2][1..] == [2] && [2][1..] == [];
    assert Existing(st, []) == [];
    assert Existing(st, [2]) == [st.validators[2]];
  }

  lemma AddBoth(st: Store, v: Validator, w: Validator, shares: int)
    requires WEEK26.Valid()
    ensures
      var a := Reweigh(st.(shares := st.shares[ShareKey(v.operator, 9) := shares]), WEEK26, v, v.shares + shares);
      AddLoop(st, WEEK26, 9, [v, w], shares) ==
      Reweigh(a.(shares := a.shares[ShareKey(w.operator, 9) := shares]), WEEK26, w, w.shares + shares)
  {
    hide Reweigh;
    var a := Reweigh(st.(shares := st.shares[ShareKey(v.operator, 9) := shares]), WEEK26, v, v.shares + shares);
    var b := Reweigh(a.(shares := a.shares[ShareKey(w.operator, 9) := shares]), WEEK26, w, w.shares + shares);
    assert [v, w][1..] == [w] && [w][1..] == [];
    assert AddLoop(b, WEEK26, 9, [], shares) == b;
    assert AddLoop(a, WEEK26, 9, [w], shares) == b;
  }

  lemma UpdateOne(st: Store, v: Validator, last: int, shares: int)
    requires WEEK26.Valid() && v.minSelfDelegation != 0
    ensures UpdateLoop(st, WEEK26, 9, [v], last, shares) ==
            Some(Reweigh(st.(shares := st.shares[ShareKey(v.operator, 9) := shares]), WEEK26, v, v.shares - last + shares))
  {
    hide Reweigh;
    assert [v][1..] == [];
  }

  lemma UpdateBoth(st: Store, v: Validator, w: Validator, last: int, shares: int)
    requires WEEK26.Valid() && v.minSelfDelegation != 0 && w.minSelfDelegation != 0
    ensures
      var a := Reweigh(st.(shares := st.shares[ShareKey(v.operator, 9) := shares]), WEEK26, v, v.shares - last + shares);
      UpdateLoop(st, WEEK26, 9, [v, w], last, shares) ==
      Some(Reweigh(a.(shares := a.shares[ShareKey(w.operator, 9) := shares]), WEEK26, w, w.shares - last + shares))
  {
    hide Reweigh;
    assert [v, w][1..] == [w];
    UpdateOne(Reweigh(st.(shares := st.shares[ShareKey(v.operator, 9) := shares]), WEEK26, v, v.shares - last + shares), w, last, shares);
  }

  // ---------- The run ----------

  /** Adds shares to both. */
  lemma Step4()
    ensures Handle(S3, WEEK26, MsgAddShares(9, [1, 2])) == Some(S4)
  {
    hide Reweigh, AddLoop, WithdrawLoop, Existing;
    Weights();
    var st := S3;
    NoneToWithdraw(st);
    ReadBoth(st);
    var v, w := Val(1, ONE), Val(2, ONE);
    AddBoth(st, v, w, HALF);
    var a0 := st.(shares := map[E1 := HALF]);
    Reweighs(a0, v, ONE + HALF, K1, K1);
    var a := Reweigh(a0, WEEK26, v, ONE + HALF);
    Reweighs(a.(shares := map[E1 := HALF, E2 := HALF]), w, ONE + HALF, K2, K2);
    assert st.shares[E1 := HALF] == map[E1 := HALF];
    assert a.shares[E2 := HALF] == map[E1 := HALF, E2 := HALF];
    var b := AddLoop(st, WEEK26, 9, [v, w], HALF);
    assert b.validators == S4.validators;
    assert b.powerIndex == S4.powerIndex;
    assert !Unfit(st, [1, 2]);
    assert st.delegators[9 := Del([1, 2], HALF, ONE)] == S4.delegators;
  }

  lemma NoneToWithdraw(st: Store)
    ensures WEEK26.Valid() && Existing(st, []) == [] && WithdrawLoop(st, WEEK26, 9, [], 0) == st
  {
  }

  /** Updates the shares of 9 on both validators. */
  lemma Updated(st: Store, r: Store, tokens: int, x: int, y: int, last: int, shares: int, ky: PowerKey)
    requires st.validators == map[1 := Val(1, x), 2 := Val(2, y)] && st.powerIndex == {K1, K2}
    requires 9 in st.delegators && st.delegators[9].validators == [1, 2] && st.delegators[9].shares == last
    requires WEEK26.Valid() && shares == Weigh(WEEK26, tokens)
    requires Power(WEEK26, x) == 1 && Power(WEEK26, y) == 1 && Power(WEEK26, x - last + shares) == 1
    requires ky == PowerKey(Power(WEEK26, y - last + shares), 2)
    requires r == st.(validators := map[1 := Val(1, x - last + shares), 2 := Val(2, y - last + shares)],
                      powerIndex := {K1, ky}, shares := st.shares[E1 := shares][E2 := shares],
                      delegators := st.delegators[9 := st.delegators[9].(shares := shares)])
    ensures UpdateShares(st, WEEK26, 9, tokens) == Some(r)
  {
    hide Reweigh, UpdateLoop, Existing, Weigh, Power;
    ReadBoth(st);
    var v, w := Val(1, x), Val(2, y);
    UpdateBoth(st, v, w, last, shares);
    var a0 := st.(shares := st.shares[E1 := shares]);
    Reweighs(a0, v, x - last + shares, K1, K1);
    var a := Reweigh(a0, WEEK26, v, x - last + shares);
    Reweighs(a.(shares := a.shares[E2 := shares]), w, y - last + shares, K2, ky);
    var b := UpdateLoop(st, WEEK26, 9, [v, w], last, shares).value;
    assert b.validators == r.validators;
    assert b.powerIndex == r.powerIndex;
  }

  /** Withdraws all but one unit, so that its shares round to nothing. */
  lemma Step5()
    ensures Handle(S4, WEEK26, MsgWithdraw(9, ONE - 1)) == Some(S5)
  {
    hide UpdateShares, Weigh, Power;
    Weights();
    var st := SetDelegator(S4, 9, Del([1, 2], HALF, 1));
    var r := st.(validators := S5.validators, shares := S5.shares, delegators := S5.delegators);
    assert st.shares[E1 := 0][E2 := 0] == S5.shares;
    assert st.delegators[9 := Del([1, 2], 0, 1)] == S5.delegators;
    Updated(st, r, 1, ONE + HALF, ONE + HALF, HALF, 0, K2);
    var u := Unbond(r, WEEK26, 9, ONE - 1).value;
    assert u.undelegations == S5.undelegations;
    assert u.timeKeys == S5.timeKeys;
    assert u == S5;
  }

  /** Destroys validator 1, which is removed while 9 still lists it. */
  lemma Step6()
    ensures Handle(S5, WEEK26, MsgDestroyValidator(1)) == Some(S6)
  {
    Weights();
    var u := Unbond(S5, WEEK26, 1, 500 * ONE).value;
    var r := Dismiss(u, WEEK26, Val(1, ONE), 0);
    assert u.undelegations == S6.undelegations;
    assert u.timeKeys == S6.timeKeys;
    assert r.validators == S6.validators;
    assert r.powerIndex == S6.powerIndex;
  }

  /** Deposits: the shares are recomputed on validator 2 only. */
  lemma Step7()
    ensures Handle(S6, WEEK26, MsgDeposit(9, ONE)) == Some(S7)
  {
    hide Reweigh, UpdateLoop, Existing, Weigh;
    Weights();
    var st := S6.(balances := S7.balances, bonded := S7.bonded, delegators := map[9 := Del([1, 2], 0, ONE + 1)]);
    assert S6.balances[9 := ONE] == S7.balances;
    assert S6.delegators[9 := Del([1, 2], 0, ONE + 1)] == st.delegators;
    ReadSecond(st);
    UpdateOne(st, Val(2, ONE), 0, HALF);
    Reweighs(st.(shares := st.shares[E2 := HALF]), Val(2, ONE), ONE + HALF, K2, K2);
    assert st.shares[E2 := HALF] == S7.shares;
    var b := UpdateLoop(st, WEEK26, 9, [Val(2, ONE)], 0, HALF).value;
    assert b.validators == S7.validators;
    assert b.powerIndex == S7.powerIndex;
    assert b.delegators[9 := Del([1, 2], HALF, ONE + 1)] == S7.delegators;
  }

  /** Creates validator 1 again, at an address that 9 lists with shares. */
  lemma Step8()
    ensures Handle(S7, WEEK26, MsgCreateValidator(1, 500 * ONE)) == Some(S8) && !Sound(S7, MsgCreateValidator(1, 500 * ONE))
  {
    hide CreateValidator;
    Weights();
    Created(S7, 1);
    assert S7.balances[1 := 0] == S8.balances;
    assert S7.powerIndex + {K1} == S8.powerIndex;
    assert S7.validators[1 := Val(1, ONE)] == S8.validators;
    assert 1 in S7.delegators[9].validators && S7.delegators[9].shares != 0;
  }

  /** Deposits once more: validator 1 loses shares it never had. */
  lemma Step9()
    ensures Handle(S8, WEEK26, MsgDeposit(9, ONE)) == Some(S9)
  {
    hide UpdateShares, Weigh, Power;
    Weights();
    var st := S8.(balances := S9.balances, bonded := S9.bonded, delegators := map[9 := Del([1, 2], HALF, 2 * ONE + 1)]);
    assert S8.balances[9 := 0] == S9.balances;
    assert S8.delegators[9 := Del([1, 2], HALF, 2 * ONE + 1)] == st.delegators;
    assert st.shares[E1 := ONE][E2 := ONE] == S9.shares;
    assert st.delegators[9 := Del([1, 2], ONE, 2 * ONE + 1)] == S9.delegators;
    Updated(st, S9, 2 * ONE + 1, ONE, ONE + HALF, HALF, ONE, PowerKey(2, 2));
  }

  function Deliveries(): seq<Step> {
    [Deliver(WEEK26, MsgCreateValidator(1, 500 * ONE)), Deliver(WEEK26, MsgCreateValidator(2, 500 * ONE)),
     Deliver(WEEK26, MsgDeposit(9, ONE)), Deliver(WEEK26, MsgAddShares(9, [1, 2])), Deliver(WEEK26, MsgWithdraw(9, ONE - 1)),
     Deliver(WEEK26, MsgDestroyValidator(1)), Deliver(WEEK26, MsgDeposit(9, ONE)),
     Deliver(WEEK26, MsgCreateValidator(1, 500 * ONE)), Deliver(WEEK26, MsgDeposit(9, ONE))]
  }

  lemma DeliverNext(st: Store, m: Message, r: Store, rest: seq<Step>)
    requires WEEK26.Valid() && Handle(st, WEEK26, m) == Some(r)
    requires forall i :: 0 <= i < |rest| ==> rest[i].ctx.Valid()
    ensures Run(st, [Deliver(WEEK26, m)] + rest) == Run(r, rest)
  {
    hide Handle;
    assert ([Deliver(WEEK26, m)] + rest)[1..] == rest;
  }

  /** The registered total of validator 1 is wrong at the end. */
  lemma TotalWrong()
    ensures ShareSum(S9.shares, 1) == ONE && S9.validators[1].shares == ONE + HALF && !ShareTotalsOk(S9)
  {
    hide Sum;
    var e := Entries(S9.shares, 1);
    assert e == map[E1 := ONE];
    SumUpdate(map[], E1, ONE);
    SumEmpty<ShareKey>();
    assert map[][E1 := ONE] == e;
    assert !SharesAt(S9, 1);
  }

  lemma FirstHalf(rest: seq<Step>)
    requires forall i :: 0 <= i < |rest| ==> rest[i].ctx.Valid()
    ensures WEEK26.Valid()
    ensures Run(S0, [Deliver(WEEK26, MsgCreateValidator(1, 500 * ONE))] + ([Deliver(WEEK26, MsgCreateValidator(2, 500 * ONE))]
                  + ([Deliver(WEEK26, MsgDeposit(9, ONE))] + ([Deliver(WEEK26, MsgAddShares(9, [1, 2]))]
                  + ([Deliver(WEEK26, MsgWithdraw(9, ONE - 1))] + rest))))) == Run(S5, rest)
  {
    hide Handle, Run;
    Weights();
    Step1();
    Step2();
    Step3();
    Step4();
    Step5();
    var r4 := [Deliver(WEEK26, MsgWithdraw(9, ONE - 1))] + rest;
    var r3 := [Deliver(WEEK26, MsgAddShares(9, [1, 2]))] + r4;
    var r2 := [Deliver(WEEK26, MsgDeposit(9, ONE))] + r3;
    var r1 := [Deliver(WEEK26, MsgCreateValidator(2, 500 * ONE))] + r2;
    DeliverNext(S0, MsgCreateValidator(1, 500 * ONE), S1, r1);
    DeliverNext(S1, MsgCreateValidator(2, 500 * ONE), S2, r2);
    DeliverNext(S2, MsgDeposit(9, ONE), S3, r3);
    DeliverNext(S3, MsgAddShares(9, [1, 2]), S4, r4);
    DeliverNext(S4, MsgWithdraw(9, ONE - 1), S5, rest);
  }

  lemma SecondHalf()
    ensures WEEK26.Valid()
    ensures Run(S5, [Deliver(WEEK26, MsgDestroyValidator(1))] + ([Deliver(WEEK26, MsgDeposit(9, ONE))]
                  + ([Deliver(WEEK26, MsgCreateValidator(1, 500 * ONE))] + [Deliver(WEEK26, MsgDeposit(9, ONE))]))) == Ok(S9)
  {
    hide Handle;
    Weights();
    Step6();
    Step7();
    Step8();
    Step9();
    var r3 := [Deliver(WEEK26, MsgDeposit(9, ONE))];
    var r2 := [Deliver(WEEK26, MsgCreateValidator(1, 500 * ONE))] + r3;
    var r1 := [Deliver(WEEK26, MsgDeposit(9, ONE))] + r2;
    DeliverNext(S5, MsgDestroyValidator(1), S6, r1);
    DeliverNext(S6, MsgDeposit(9, ONE), S7, r2);
    DeliverNext(S7, MsgCreateValidator(1, 500 * ONE), S8, r3);
    assert r3 + [] == r3;
    DeliverNext(S8, MsgDeposit(9, ONE), S9, []);
  }

  /** From the empty store, nine messages that all succeed break the registered invariant. */
  lemma RegisteredFails()
    ensures WEEK26.Valid()
    ensures S0 == Genesis(map[1 := 1000 * ONE, 2 := 500 * ONE, 9 := 3 * ONE])
    ensures forall i :: 0 <= i < |Deliveries()| ==> Deliveries()[i].ctx.Valid()
    ensures Run(S0, Deliveries()) == Ok(S9) && !Registered(S9, WEEK26)
  {
    hide Handle, Run, Registered;
    Weights();
    var last := [Deliver(WEEK26, MsgDestroyValidator(1))] + ([Deliver(WEEK26, MsgDeposit(9, ONE))]
                + ([Deliver(WEEK26, MsgCreateValidator(1, 500 * ONE))] + [Deliver(WEEK26, MsgDeposit(9, ONE))]));
    FirstHalf(last);
    SecondHalf();
    assert Deliveries() ==
      [Deliver(WEEK26, MsgCreateValidator(1, 500 * ONE))] + ([Deliver(WEEK26, MsgCreateValidator(2, 500 * ONE))]
                  + ([Deliver(WEEK26, MsgDeposit(9, ONE))] + ([Deliver(WEEK26, MsgAddShares(9, [1, 2]))]
                  + ([Deliver(WEEK26, MsgWithdraw(9, ONE - 1))] + last))));
    NotRegistered();
  }

  lemma NotRegistered()
    ensures WEEK26.Valid() && !Registered(S9, WEEK26)
  {
    hide ShareSum, Sum;
    Weights();
    TotalWrong();
  }
}
