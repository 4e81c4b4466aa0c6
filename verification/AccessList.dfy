/** The per-transaction access list (EIP-2929): addresses, each with the position of
    its slot set in a growing slice, or -1 when it has none. */
module AccessLists {
  import opened EvmTypes

  datatype AccessList = AccessList(addresses: map<Address, int>, slots: seq<set<Word>>) {

    /** Positions are -1 or in range, no two addresses share one, every position belongs
        to some address, and no slot set is empty. */
    ghost predicate Valid() {
      && (forall a :: a in addresses ==> -1 <= addresses[a] < |slots|)
      && (forall a, b :: a in addresses && b in addresses && a != b && addresses[a] == addresses[b]
                         ==> addresses[a] == -1)
      && (forall i :: 0 <= i < |slots| ==> slots[i] != {})
      && (forall i :: 0 <= i < |slots| ==> Owned(i))
    }

    ghost predicate Owned(i: int) {
      exists a :: a in addresses && addresses[a] == i
    }

    /** The slots recorded for an address: what the structure means to a reader. */
    ghost function SlotsOf(a: Address): (s: set<Word>) {
      if a in addresses && 0 <= addresses[a] < |slots| then slots[addresses[a]] else {}
    }

    function ContainsAddress(a: Address): bool {
      a in addresses
    }

    function Contains(a: Address, slot: Word): (r: (bool, bool))
      ensures Valid() ==> r == (a in addresses, slot in SlotsOf(a))
    {
      if a !in addresses then (false, false)
      else if addresses[a] == -1 then (true, false)
      else if addresses[a] >= |slots| then (true, false)
      else if addresses[a] < 0 then (true, false) // no position below -1 is ever stored
      else (true, slot in slots[addresses[a]])
    }

    /** AddAddress; the second component tells whether a journal entry is due. */
    function AddAddress(a: Address): (AccessList, bool) {
      if a in addresses then (this, false)
      else (AccessList(addresses[a := -1], slots), true)
    }

    /** AddSlot; the flags tell which journal entries are due. */
    function AddSlot(a: Address, slot: Word): (AccessList, bool, bool) {
      if a !in addresses || addresses[a] == -1 then
        (AccessList(addresses[a := |slots|], slots + [{slot}]), a !in addresses, true)
      else if addresses[a] >= |slots| || addresses[a] < 0 then (this, false, false)
      else if slot !in slots[addresses[a]] then
        (AccessList(addresses, slots[addresses[a] := slots[addresses[a]] + {slot}]), false, true)
      else (this, false, false)
    }

    /** DeleteSlot, the undo of AddSlot; it panics on a missing address or position. */
    function DeleteSlot(a: Address, slot: Word): Outcome<AccessList> {
      if a !in addresses || !(0 <= addresses[a] < |slots|) then Panic
      else
        var idx := addresses[a];
        var rest := slots[idx] - {slot};
        if rest == {} then Ok(AccessList(addresses[a := -1], slots[..idx]))
        else Ok(AccessList(addresses, slots[idx := rest]))
    }

    /** DeleteAddress, the undo of AddAddress. */
    function DeleteAddress(a: Address): AccessList {
      AccessList(addresses - {a}, slots)
    }
  }

  const EMPTY := AccessList(map[], [])

  /** Every position stays owned when addresses keep their position or gain one. */
  lemma OwnedMonotone(al: AccessList, r: AccessList, i: int)
    requires al.Owned(i)
    requires forall b :: b in al.addresses && al.addresses[b] == i ==> b in r.addresses && r.addresses[b] == i
    ensures r.Owned(i)
  {
    var b :| b in al.addresses && al.addresses[b] == i;
    assert r.addresses[b] == i;
  }

  /** Adding an address keeps the structure, adds exactly that address, and is undone
      exactly by deleting it. */
  lemma AddAddressInverse(al: AccessList, a: Address)
    requires al.Valid()
    ensures al.AddAddress(a).0.Valid()
    ensures al.AddAddress(a).1 <==> a !in al.addresses
    ensures al.AddAddress(a).0.addresses.Keys == al.addresses.Keys + {a}
    ensures forall b :: al.AddAddress(a).0.SlotsOf(b) == al.SlotsOf(b)
    ensures al.AddAddress(a).1 ==> al.AddAddress(a).0.DeleteAddress(a) == al
  {
    var r := al.AddAddress(a).0;
    if a !in al.addresses {
      assert forall b :: b in al.addresses ==> b in r.addresses && r.addresses[b] == al.addresses[b];
      assert r.addresses - {a} == al.addresses;
      forall i | 0 <= i < |r.slots|
        ensures r.Owned(i)
      {
        OwnedMonotone(al, r, i);
      }
    } else {
      assert al.addresses.Keys + {a} == al.addresses.Keys;
    }
  }

  lemma AddSlotValid(al: AccessList, a: Address, slot: Word)
    requires al.Valid()
    ensures al.AddSlot(a, slot).0.Valid()
  {
    var r := al.AddSlot(a, slot).0;
    forall i | 0 <= i < |r.slots|
      ensures r.Owned(i)
    {
      if i == |al.slots| {
        assert r.addresses[a] == i;
      } else {
        OwnedMonotone(al, r, i);
      }
    }
  }

  /** Adding a slot for a changes the slots of a alone. */
  lemma AddSlotAt(al: AccessList, a: Address, slot: Word, b: Address)
    requires al.Valid()
    ensures al.AddSlot(a, slot).0.SlotsOf(b) == if b == a then al.SlotsOf(a) + {slot} else al.SlotsOf(b)
  {
    var r := al.AddSlot(a, slot).0;
    if b != a && b in al.addresses {
      assert r.addresses[b] == al.addresses[b];
    }
  }

  /** Adding a slot keeps the structure and adds exactly (a, slot): no other address
      gains or loses a slot, and the out-of-range guard is never taken. */
  lemma AddSlotMeaning(al: AccessList, a: Address, slot: Word)
    requires al.Valid()
    ensures al.AddSlot(a, slot).0.Valid()
    ensures al.AddSlot(a, slot).0.addresses.Keys == al.addresses.Keys + {a}
    ensures al.AddSlot(a, slot).1 <==> a !in al.addresses
    ensures al.AddSlot(a, slot).2 <==> slot !in al.SlotsOf(a)
    ensures forall b :: al.AddSlot(a, slot).0.SlotsOf(b) ==
                        if b == a then al.SlotsOf(a) + {slot} else al.SlotsOf(b)
  {
    AddSlotValid(al, a, slot);
    forall b {
      AddSlotAt(al, a, slot, b);
    }
  }

  /** Undoing AddSlot.  Deleting the slot restores the list as it was with the address
      present; deleting the address as well, when AddSlot brought it in, restores the
      list exactly.  When the slot set empties its position is the last one. */
  lemma AddSlotInverse(al: AccessList, a: Address, slot: Word)
    requires al.Valid()
    requires al.AddSlot(a, slot).2
    ensures var r := al.AddSlot(a, slot).0.DeleteSlot(a, slot);
            && r.Ok?
            && r.value == al.AddAddress(a).0
            && (a !in al.addresses ==> r.value.DeleteAddress(a) == al)
  {
    AddAddressInverse(al, a);
    var s := al.AddSlot(a, slot).0;
    if a !in al.addresses || al.addresses[a] == -1 {
      assert s.slots[..|al.slots|] == al.slots;
      assert al.addresses[a := |al.slots|][a := -1] == al.AddAddress(a).0.addresses;
      assert {slot} - {slot} == {};
    } else {
      var idx := al.addresses[a];
      assert s.slots[idx] - {slot} == al.slots[idx];
      assert s.slots[idx := al.slots[idx]] == al.slots;
    }
  }
}
