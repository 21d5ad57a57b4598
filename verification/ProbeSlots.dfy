/** The slots of an open-addressed hash table with tombstones, and what makes a
    key findable in it. The hash is an arbitrary function, so nothing here
    depends on its quality. */
module ProbeSlots {

  datatype Slot<K> = Empty | Occupied(key: K, value: nat) | Tombstone

  /** How many steps a probe that starts in `home` takes to get to `slot`. */
  function Distance(home: nat, slot: nat, size: nat): (d: int)
    requires home < size && slot < size
    ensures 0 <= d < size
  {
    if home <= slot then slot - home else slot + size - home
  }

  lemma StepWraps(slot: nat, size: nat)
    requires slot < size
    ensures (slot + 1) % size == if slot + 1 == size then 0 else slot + 1
  {
  }

  /** A key whose slot is `at[key]`, with no Empty slot on the way there; no key twice. */
  ghost predicate Reachable<K(!new)>(s: seq<Slot<K>>, mix: K -> nat, at: map<K, nat>) {
    && |s| > 0
    && (forall k :: k in at ==> at[k] < |s| && s[at[k]].Occupied? && s[at[k]].key == k)
    && (forall i :: 0 <= i < |s| && s[i].Occupied? ==> s[i].key in at && at[s[i].key] == i)
    && (forall k, j :: k in at && 0 <= j < |s| && Distance(mix(k) % |s|, j, |s|) < Distance(mix(k) % |s|, at[k], |s|)
                       ==> !s[j].Empty?)
  }

  ghost predicate HasEmpty<K>(s: seq<Slot<K>>) {
    exists j :: 0 <= j < |s| && s[j].Empty?
  }

  /** `j` is where a probe for a new key ends when it may reuse a tombstone:
      the first tombstone before the first Empty slot, or that Empty slot. */
  ghost predicate Destination<K>(s: seq<Slot<K>>, home: nat, j: nat) {
    && home < |s| && j < |s|
    && !s[j].Occupied?
    && (forall i :: 0 <= i < |s| && Distance(home, i, |s|) < Distance(home, j, |s|) ==> s[i].Occupied?)
  }

  lemma WriteKeepsReachable<K(!new)>(s: seq<Slot<K>>, mix: K -> nat, at: map<K, nat>, key: K, value: nat, j: nat)
    requires Reachable(s, mix, at) && key !in at
    requires Destination(s, mix(key) % |s|, j)
    ensures Reachable(s[j := Occupied(key, value)], mix, at[key := j])
    ensures Held(s[j := Occupied(key, value)], at[key := j]) == Held(s, at)[key := value]
  {
    hide Distance;
  }

  lemma EraseKeepsReachable<K(!new)>(s: seq<Slot<K>>, mix: K -> nat, at: map<K, nat>, key: K)
    requires Reachable(s, mix, at) && key in at
    ensures Reachable(s[at[key] := Tombstone], mix, at - {key})
    ensures Held(s[at[key] := Tombstone], at - {key}) == Held(s, at) - {key}
  {
    hide Distance;
  }

  /** The entries a table holds, as a plain map. */
  ghost function Held<K>(s: seq<Slot<K>>, at: map<K, nat>): (m: map<K, nat>)
    requires forall k :: k in at ==> at[k] < |s| && s[at[k]].Occupied?
    ensures m.Keys == at.Keys
  {
    map k | k in at :: s[at[k]].value
  }
}
