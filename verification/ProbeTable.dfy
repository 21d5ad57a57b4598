/** The open-addressed hash index that both lookup tables of the book are
    instances of: the order index is keyed by the order id, the level index by
    the pair of side and price. */
module ProbeTables {
  import opened MarketTypes
  import opened Sums
  import opened ProbeSlots
  import opened ProbeRooms

  /** Every key is where its probe finds it, and the Empty slots are accounted for. */
  ghost predicate Probes<K(!new)>(s: seq<Slot<K>>, mix: K -> nat, at: map<K, nat>, used: set<K>) {
    Reachable(s, mix, at) && Roomy(s, mix, at, used)
  }

  lemma WriteKeepsProbes<K(!new)>(s: seq<Slot<K>>, mix: K -> nat, at: map<K, nat>, used: set<K>, key: K, value: nat,
                           j: nat)
    requires Probes(s, mix, at, used) && key !in at
    requires Destination(s, mix(key) % |s|, j)
    ensures Probes(s[j := Occupied(key, value)], mix, at[key := j], used + {key})
    ensures Held(s[j := Occupied(key, value)], at[key := j]) == Held(s, at)[key := value]
  {
    hide Roomy, Reachable;
    WriteKeepsReachable(s, mix, at, key, value, j);
    WriteKeepsRoom(s, mix, at, used, key, value, j);
  }

  lemma EraseKeepsProbes<K(!new)>(s: seq<Slot<K>>, mix: K -> nat, at: map<K, nat>, used: set<K>, key: K)
    requires Probes(s, mix, at, used) && key in at
    ensures Probes(s[at[key] := Tombstone], mix, at - {key}, used)
    ensures Held(s[at[key] := Tombstone], at - {key}) == Held(s, at) - {key}
  {
    hide Roomy, Reachable;
    EraseKeepsReachable(s, mix, at, key);
    EraseKeepsRoom(s, mix, at, used, key);
  }

  class ProbeTable<K(==, !new)> {
    const mix: K -> nat
    const slots: array<Slot<K>>
    ghost var at: map<K, nat>    // where each key is
    ghost var used: set<K>       // the keys ever inserted

    ghost predicate Valid()
      reads this, slots
    {
      Probes(slots[..], mix, at, used)
    }

    /** What the table holds, as a plain map. */
    ghost function Contents(): (m: map<K, nat>)
      requires Valid()
      reads this, slots
      ensures m.Keys == at.Keys
    {
      Held(slots[..], at)
    }

    ghost predicate AnyEmpty()
      reads slots
    {
      HasEmpty(slots[..])
    }

    /** Room for every key of a set that is smaller than the table. */
    lemma RoomFor(keys: set<K>)
      requires Valid() && used <= keys && |keys| < slots.Length
      ensures AnyEmpty()
    {
      SubsetSize(used, keys);
      RoomLeft(slots[..], mix, at, used);
    }

    lemma KeysUsed()
      requires Valid()
      ensures at.Keys <= used
    {
    }

    /** A key that was ever inserted has taken its home's Empty slot. */
    lemma HomeTaken(key: K)
      requires Valid() && key in used
      ensures !slots[mix(key) % slots.Length].Empty?
    {
      assert !slots[..][mix(key) % |slots[..]|].Empty?;
    }

    constructor (size: nat, mix: K -> nat)
      requires size > 0
      ensures Valid() && Contents() == map[] && AnyEmpty() && used == {}
      ensures fresh(slots) && slots.Length == size && this.mix == mix
      ensures forall i :: 0 <= i < size ==> slots[i].Empty?
    {
      this.mix := mix;
      slots := new Slot<K>[size](_ => Empty);
      at, used := map[], {};
      new;
      EmptyRoomy(slots[..], mix);
    }

    /** The probing loop of the lookups: it stops at the key or at an Empty slot. */
    method Locate(key: K) returns (r: Option<nat>)
      requires Valid()
      ensures r == if key in at then Some(at[key]) else None
    {
      var home := mix(key) % slots.Length;
      var slot := home;
      var probe := 0;
      while probe < slots.Length
        invariant 0 <= probe <= slots.Length && 0 <= slot < slots.Length
        invariant probe < slots.Length ==> Distance(home, slot, slots.Length) == probe
        invariant forall i :: 0 <= i < slots.Length && Distance(home, i, slots.Length) < probe
                              ==> !(slots[i].Occupied? && slots[i].key == key)
      {
        if slots[slot].Empty? {
          return None;
        }
        if slots[slot].Occupied? && slots[slot].key == key {
          return Some(slot);
        }
        StepWraps(slot, slots.Length);
        slot := (slot + 1) % slots.Length;
        probe := probe + 1;
      }
      return None;
    }

    method Find(key: K) returns (r: Option<nat>)
      requires Valid()
      ensures r == if key in Contents() then Some(Contents()[key]) else None
    {
      var slot := Locate(key);
      return if slot.Some? then Some(slots[slot.value].value) else None;
    }

    lemma SomeSlots()
      requires Valid()
      ensures slots.Length > 0
    {
      hide Roomy;
    }

    /** The probing loop the two insertions share: it remembers the first
        tombstone and stops at the first Empty slot. Without an Empty slot it
        goes once round the table, and `destination` is the first tombstone,
        or the table's size when every slot is occupied. */
    method FindDestination(key: K) returns (destination: nat, sawEmpty: bool)
      requires Valid()
      ensures sawEmpty <==> AnyEmpty()
      ensures destination < slots.Length <==> exists j :: 0 <= j < slots.Length && !slots[j].Occupied?
      ensures destination < slots.Length ==> Destination(slots[..], mix(key) % slots.Length, destination)
      ensures destination <= slots.Length && (sawEmpty ==> destination < slots.Length)
    {
      hide Probes;
      SomeSlots();
      var home := mix(key) % slots.Length;
      var slot := home;
      var tombstone := slots.Length;
      var probe := 0;
      while probe < slots.Length
        invariant 0 <= probe <= slots.Length && 0 <= slot < slots.Length && 0 <= tombstone <= slots.Length
        invariant probe < slots.Length ==> Distance(home, slot, slots.Length) == probe
        invariant forall i :: 0 <= i < slots.Length && Distance(home, i, slots.Length) < probe
                              ==> if tombstone == slots.Length then slots[i].Occupied? else !slots[i].Empty?
        invariant tombstone < slots.Length ==> slots[tombstone].Tombstone?
        invariant tombstone < slots.Length ==>
          forall i ::
            && 0 <= i < slots.Length
            && Distance(home, i, slots.Length) < Distance(home, tombstone, slots.Length)
            ==> slots[i].Occupied?
      {
        if slots[slot].Tombstone? && tombstone == slots.Length {
          tombstone := slot;
        }
        if slots[slot].Empty? {
          assert slots[..][slot].Empty?;
          return if tombstone == slots.Length then slot else tombstone, true;
        }
        StepWraps(slot, slots.Length);
        slot := (slot + 1) % slots.Length;
        probe := probe + 1;
      }
      return tombstone, false;
    }

    /** The order index's insertion: any slot that is not occupied will do. */
    method InsertReusing(key: K, value: nat) returns (ok: bool)
      requires Valid() && key !in Contents()
      modifies this, slots
      ensures Valid()
      ensures ok <==> exists j :: 0 <= j < slots.Length && !old(slots[..])[j].Occupied?
      ensures !ok ==> slots[..] == old(slots[..]) && at == old(at)
      ensures ok ==> Written(old(slots[..]), old(at), key, value)
      ensures used == if ok then old(used) + {key} else old(used)
      ensures Contents() == if ok then old(Contents())[key := value] else old(Contents())
    {
      hide ProbeTable.Valid, Probes, Roomy, Reachable, ProbeTable.AnyEmpty, HasEmpty;
      var destination, _ := FindDestination(key);
      ok := destination < slots.Length;
      if ok {
        Write(key, value, destination);
      }
    }

    /** The level index's insertion: without an Empty slot it refuses, even when a
        tombstone could be reused. */
    method InsertBeforeEmpty(key: K, value: nat) returns (ok: bool)
      requires Valid() && key !in Contents()
      modifies this, slots
      ensures Valid()
      ensures ok <==> old(AnyEmpty())
      ensures !ok ==> slots[..] == old(slots[..]) && at == old(at)
      ensures ok ==> Written(old(slots[..]), old(at), key, value)
      ensures used == if ok then old(used) + {key} else old(used)
      ensures Contents() == if ok then old(Contents())[key := value] else old(Contents())
    {
      var destination, sawEmpty := FindDestination(key);
      ok := sawEmpty;
      if ok {
        Write(key, value, destination);
      }
    }

    /** The table is the earlier one with the key written where its probe ended. */
    ghost predicate Written(was: seq<Slot<K>>, atWas: map<K, nat>, key: K, value: nat)
      requires |was| == slots.Length > 0
      reads this, slots
    {
      && key in at
      && at == atWas[key := at[key]]
      && Destination(was, mix(key) % |was|, at[key])
      && slots[..] == was[at[key] := Occupied(key, value)]
    }

    method Write(key: K, value: nat, destination: nat)
      requires Valid() && key !in Contents()
      requires Destination(slots[..], mix(key) % slots.Length, destination)
      modifies this, slots
      ensures Valid() && Written(old(slots[..]), old(at), key, value) && used == old(used) + {key}
      ensures Contents() == old(Contents())[key := value]
    {
      WriteKeepsProbes(slots[..], mix, at, used, key, value, destination);
      hide Probes;
      slots[destination] := Occupied(key, value);
      at := at[key := destination];
      used := used + {key};
      assert slots[..] == old(slots[..])[destination := Occupied(key, value)];
    }

    method Erase(key: K)
      requires Valid()
      modifies this, slots
      ensures Valid()
      ensures Contents() == old(Contents()) - {key}
      ensures key !in old(at) ==> slots[..] == old(slots[..])
      ensures key in old(at) ==> slots[..] == old(slots[..])[old(at)[key] := Tombstone]
      ensures at == old(at) - {key} && used == old(used)
    {
      var slot := Locate(key);
      if slot.Some? {
        EraseKeepsProbes(slots[..], mix, at, used, key);
        slots[slot.value] := Tombstone;
        at := at - {key};
        assert slots[..] == old(slots[..])[slot.value := Tombstone];
      }
    }
  }

  /** A table with more slots than keys has a slot that is not occupied. */
  lemma FreeSlotExists<K(!new)>(s: seq<Slot<K>>, mix: K -> nat, at: map<K, nat>, used: set<K>)
    requires Probes(s, mix, at, used) && |at| < |s|
    ensures exists j :: 0 <= j < |s| && !s[j].Occupied?
  {
    hide Roomy;
    if forall j :: 0 <= j < |s| ==> s[j].Occupied? {
      var all := Indices(|s|);
      OccupiedKeys(s, mix, at, all, at.Keys);
    }
  }
}
