/** Room in a table that never gives an Empty slot back. A key may be erased
    and inserted again any number of times: as long as fewer keys have ever
    been inserted than there are slots, some slot is still Empty.

    The argument counts from an Empty slot `e`. No probe path crosses it, so the
    table can be read as a line that starts there. Up to any place `t` on that
    line, at least as many used keys have their home as there are slots in use,
    plus live keys whose path leads across `t`. */
module ProbeRooms {
  import opened Sums
  import opened ProbeSlots

  ghost function Homes<K>(mix: K -> nat, used: set<K>, n: nat, e: nat, from: int, to: int): set<K>
    requires e < n
  {
    set k | k in used && from <= Distance(e, mix(k) % n, n) < to
  }

  ghost function Full<K>(s: seq<Slot<K>>, e: nat, to: int): set<nat>
    requires e < |s|
  {
    set i: nat | 0 <= i < |s| && Distance(e, i, |s|) < to && !s[i].Empty?
  }

  /** The live keys whose path from home to slot leads across `t`. */
  ghost function Across<K>(n: nat, mix: K -> nat, at: map<K, nat>, e: nat, t: int): set<K>
    requires e < n && forall k :: k in at ==> at[k] < n
  {
    set k | k in at && Distance(e, mix(k) % n, n) < t <= Distance(e, at[k], n)
  }

  ghost predicate Balanced<K(!new)>(s: seq<Slot<K>>, mix: K -> nat, at: map<K, nat>, used: set<K>, e: nat, t: int)
    requires e < |s| && forall k :: k in at ==> at[k] < |s|
  {
    |Homes(mix, used, |s|, e, 0, t)| >= |Full(s, e, t)| + |Across(|s|, mix, at, e, t)|
  }

  /** What the table keeps about the keys ever inserted. */
  ghost predicate Roomy<K(!new)>(s: seq<Slot<K>>, mix: K -> nat, at: map<K, nat>, used: set<K>) {
    && |s| > 0
    && (forall k :: k in at ==> at[k] < |s|)
    && at.Keys <= used
    && (forall k :: k in used ==> !s[mix(k) % |s|].Empty?)
    && (forall e: nat, t: nat {:trigger Balanced(s, mix, at, used, e, t)} :: e < |s| && s[e].Empty? && t <= |s| ==>
      Balanced(s, mix, at, used, e, t))
    && (HasEmpty(s) || |used| >= |s|)
  }

  /** Fewer keys than slots: there is room for a new one. */
  lemma RoomLeft<K(!new)>(s: seq<Slot<K>>, mix: K -> nat, at: map<K, nat>, used: set<K>)
    requires Roomy(s, mix, at, used) && |used| < |s|
    ensures HasEmpty(s)
  {
  }

  /** Who goes from `a` to `b` passes `e`, if `b` comes before `a` when counting from `e`. */
  lemma GoingRound(n: nat, e: nat, a: nat, b: nat)
    requires e < n && a < n && b < n && b != e
    ensures Distance(e, a, n) > Distance(e, b, n) ==> Distance(a, e, n) < Distance(a, b, n)
  {
  }

  /** Seen from an Empty slot, a live key lies at or behind its home. */
  lemma BehindHome<K(!new)>(s: seq<Slot<K>>, mix: K -> nat, at: map<K, nat>, e: nat, k: K)
    requires Reachable(s, mix, at) && e < |s| && s[e].Empty? && k in at
    ensures Distance(e, mix(k) % |s|, |s|) <= Distance(e, at[k], |s|)
  {
    var h := mix(k) % |s|;
    assert s[at[k]].Occupied?;
    GoingRound(|s|, e, h, at[k]);
  }

  lemma {:induction false} SubsetSize<T>(a: set<T>, b: set<T>)
    requires a <= b
    ensures |a| <= |b|
  {
    assert b == a + (b - a);
  }

  /** The live keys that lie between two places. */
  ghost function Lying<K>(n: nat, at: map<K, nat>, e: nat, from: int, to: int): set<K>
    requires e < n && forall k :: k in at ==> at[k] < n
  {
    set k | k in at && from <= Distance(e, at[k], n) < to
  }

  /** Occupied slots hold different keys. */
  lemma {:induction false} OccupiedKeys<K(!new)>(s: seq<Slot<K>>, mix: K -> nat, at: map<K, nat>, slots: set<nat>,
                                          keys: set<K>)
    requires Reachable(s, mix, at)
    requires forall i :: i in slots ==> i < |s| && s[i].Occupied? && s[i].key in keys
    ensures |slots| <= |keys|
    decreases |slots|
  {
    if slots != {} {
      var i :| i in slots;
      forall j | j in slots - {i}
        ensures s[j].key != s[i].key
      {
        assert at[s[i].key] == i && at[s[j].key] == j;
      }
      OccupiedKeys(s, mix, at, slots - {i}, keys - {s[i].key});
    }
  }

  /** Where every slot from home to `t` is occupied by others, the keys outnumber
      the slots in use by one: the used key that has its home there but is gone. */
  lemma Slack<K(!new)>(s: seq<Slot<K>>, mix: K -> nat, at: map<K, nat>, used: set<K>, e: nat, t: nat, key: K)
    requires Reachable(s, mix, at) && Roomy(s, mix, at, used)
    requires e < |s| && s[e].Empty? && key in used && key !in at && t <= |s|
    requires Distance(e, mix(key) % |s|, |s|) < t
    requires forall i: nat :: i < |s| && Distance(e, mix(key) % |s|, |s|) <= Distance(e, i, |s|) < t ==> s[i].Occupied?
    ensures |Homes(mix, used, |s|, e, 0, t)| >= |Full(s, e, t)| + |Across(|s|, mix, at, e, t)| + 1
  {
    var n := |s|;
    var h := Distance(e, mix(key) % n, n);
    assert Balanced(s, mix, at, used, e, h);
    LiveSplit(s, mix, at, e, h, t);
    HomesSplit(mix, at.Keys, used, n, e, h, t, key);
    FullSplit(s, mix, at, e, h, t);
  }

  /** Live keys with their home before `t` that lie at or behind `h`, counted two ways. */
  lemma LiveSplit<K(!new)>(s: seq<Slot<K>>, mix: K -> nat, at: map<K, nat>, e: nat, h: nat, t: nat)
    requires Reachable(s, mix, at) && e < |s| && s[e].Empty? && h <= t
    ensures |Across(|s|, mix, at, e, h)| + |Homes(mix, at.Keys, |s|, e, h, t)|
         == |Lying(|s|, at, e, h, t)| + |Across(|s|, mix, at, e, t)|
  {
    var n := |s|;
    var a, b := Across(n, mix, at, e, h), Homes(mix, at.Keys, n, e, h, t);
    var c, d := Lying(n, at, e, h, t), Across(n, mix, at, e, t);
    forall k | k in at
      ensures Distance(e, mix(k) % n, n) <= Distance(e, at[k], n)
    {
      BehindHome(s, mix, at, e, k);
    }
    assert a !! b && c !! d;
    assert a + b == c + d;
    assert |a + b| == |a| + |b| && |c + d| == |c| + |d|;
  }

  lemma HomesSplit<K(!new)>(mix: K -> nat, live: set<K>, used: set<K>, n: nat, e: nat, h: nat, t: nat, key: K)
    requires e < n && live <= used && key in used - live && Distance(e, mix(key) % n, n) == h < t
    ensures |Homes(mix, used, n, e, 0, t)| >= |Homes(mix, used, n, e, 0, h)| + |Homes(mix, live, n, e, h, t)| + 1
  {
    var before, here := Homes(mix, used, n, e, 0, h), Homes(mix, live, n, e, h, t);
    assert before !! here && key !in before && key !in here;
    assert |before + here + {key}| == |before| + |here| + 1;
    SubsetSize(before + here + {key}, Homes(mix, used, n, e, 0, t));
  }

  lemma FullSplit<K(!new)>(s: seq<Slot<K>>, mix: K -> nat, at: map<K, nat>, e: nat, h: nat, t: nat)
    requires Reachable(s, mix, at) && e < |s| && h <= t
    requires forall i: nat :: i < |s| && h <= Distance(e, i, |s|) < t ==> s[i].Occupied?
    ensures |Full(s, e, t)| <= |Full(s, e, h)| + |Lying(|s|, at, e, h, t)|
  {
    var before, all := Full(s, e, h), Full(s, e, t);
    var here := all - before;
    assert all == before + here;
    assert |all| == |before| + |here|;
    OccupiedKeys(s, mix, at, here, Lying(|s|, at, e, h, t));
  }

  // ---------- insertion ----------

  lemma WithOne<T>(a: set<T>, x: T)
    ensures |a + {x}| == |a| + if x in a then 0 else 1
  {
    if x in a {
      assert a + {x} == a;
    }
  }

  /** How the counts change when `key` is written at `j`. */
  lemma HomesAfterWrite<K(!new)>(mix: K -> nat, used: set<K>, key: K, n: nat, e: nat, t: nat)
    requires e < n
    ensures |Homes(mix, used + {key}, n, e, 0, t)|
         == |Homes(mix, used, n, e, 0, t)| + (if Distance(e, mix(key) % n, n) < t && key !in used then 1 else 0)
  {
    var h := Distance(e, mix(key) % n, n);
    var was, now := Homes(mix, used, n, e, 0, t), Homes(mix, used + {key}, n, e, 0, t);
    if h < t {
      assert now == was + {key};
      WithOne(was, key);
    } else {
      assert now == was;
    }
  }

  lemma FullAfterWrite<K(!new)>(s: seq<Slot<K>>, key: K, value: nat, j: nat, e: nat, t: nat)
    requires e < |s| && j < |s| && !s[j].Occupied?
    ensures |Full(s[j := Occupied(key, value)], e, t)|
         == |Full(s, e, t)| + (if Distance(e, j, |s|) < t && s[j].Empty? then 1 else 0)
  {
    var was, now := Full(s, e, t), Full(s[j := Occupied(key, value)], e, t);
    if Distance(e, j, |s|) < t {
      assert now == was + {j};
      WithOne(was, j);
    } else {
      assert now == was;
    }
  }

  lemma AcrossAfterWrite<K(!new)>(mix: K -> nat, at: map<K, nat>, key: K, n: nat, j: nat, e: nat, t: nat)
    requires e < n && j < n && key !in at && forall k :: k in at ==> at[k] < n
    ensures |Across(n, mix, at[key := j], e, t)|
         == |Across(n, mix, at, e, t)| + (if Distance(e, mix(key) % n, n) < t <= Distance(e, j, n) then 1 else 0)
  {
    var was, now := Across(n, mix, at, e, t), Across(n, mix, at[key := j], e, t);
    if Distance(e, mix(key) % n, n) < t <= Distance(e, j, n) {
      assert now == was + {key};
      WithOne(was, key);
    } else {
      assert now == was;
    }
  }

  /** Behind an Empty slot the line may be counted from that slot on. */
  lemma CountsBehind<K(!new)>(s: seq<Slot<K>>, mix: K -> nat, at: map<K, nat>, used: set<K>, e: nat, j: nat, t: nat)
    requires Reachable(s, mix, at) && Roomy(s, mix, at, used)
    requires e < |s| && s[e].Empty? && j < |s| && s[j].Empty? && Distance(e, j, |s|) < t <= |s|
    ensures
      var n, d := |s|, Distance(e, j, |s|);
      |Homes(mix, used, n, e, 0, t)| - |Homes(mix, used, n, e, 0, d)| >= |Full(s, e, t)| - |Full(s, e, d)|
        + |Across(n, mix, at, e, t)|
  {
    var n, d := |s|, Distance(e, j, |s|);
    assert Balanced(s, mix, at, used, j, t - d);
    HomesBehind(mix, used, n, e, j, t);
    FullBehind(s, e, j, t);
    AcrossBehind(s, mix, at, e, j, t);
  }

  lemma HomesBehind<K(!new)>(mix: K -> nat, used: set<K>, n: nat, e: nat, j: nat, t: nat)
    requires e < n && j < n && Distance(e, j, n) < t <= n
    ensures |Homes(mix, used, n, e, 0, t)| == |Homes(mix, used, n, e, 0, Distance(e, j, n))|
      + |Homes(mix, used, n, j, 0, t - Distance(e, j, n))|
  {
    var d := Distance(e, j, n);
    var before, behind := Homes(mix, used, n, e, 0, d), Homes(mix, used, n, j, 0, t - d);
    assert before !! behind;
    assert Homes(mix, used, n, e, 0, t) == before + behind;
  }

  lemma FullBehind<K>(s: seq<Slot<K>>, e: nat, j: nat, t: nat)
    requires e < |s| && j < |s| && Distance(e, j, |s|) < t <= |s|
    ensures |Full(s, e, t)| == |Full(s, e, Distance(e, j, |s|))| + |Full(s, j, t - Distance(e, j, |s|))|
  {
    var d := Distance(e, j, |s|);
    var before, behind := Full(s, e, d), Full(s, j, t - d);
    assert before !! behind;
    assert Full(s, e, t) == before + behind;
  }

  lemma AcrossBehind<K(!new)>(s: seq<Slot<K>>, mix: K -> nat, at: map<K, nat>, e: nat, j: nat, t: nat)
    requires Reachable(s, mix, at) && e < |s| && s[e].Empty? && j < |s| && s[j].Empty? && Distance(e, j, |s|) < t <= |s|
    ensures |Across(|s|, mix, at, e, t)| <= |Across(|s|, mix, at, j, t - Distance(e, j, |s|))|
  {
    var n, d := |s|, Distance(e, j, |s|);
    forall k | k in Across(n, mix, at, e, t)
      ensures k in Across(n, mix, at, j, t - d)
    {
      BehindHome(s, mix, at, j, k);
      BehindHome(s, mix, at, e, k);
    }
    SubsetSize(Across(n, mix, at, e, t), Across(n, mix, at, j, t - d));
  }

  /** `j` is the destination of a probe from `home`, so seen from an Empty slot it lies
      behind home, and every slot between is occupied. */
  lemma BehindDestination<K(!new)>(s: seq<Slot<K>>, home: nat, j: nat, e: nat)
    requires Destination(s, home, j) && e < |s| && s[e].Empty? && e != j
    ensures Distance(e, home, |s|) <= Distance(e, j, |s|)
    ensures forall i: nat :: i < |s| && Distance(e, home, |s|) <= Distance(e, i, |s|) < Distance(e, j, |s|) ==>
      s[i].Occupied?
  {
    var n := |s|;
    GoingRound(n, e, home, j);
    forall i: nat | i < n && Distance(e, home, n) <= Distance(e, i, n) < Distance(e, j, n)
      ensures s[i].Occupied?
    {
      assert Distance(home, i, n) < Distance(home, j, n);
    }
  }

  lemma WriteKeepsBalance<K(!new)>(s: seq<Slot<K>>, mix: K -> nat, at: map<K, nat>, used: set<K>, key: K, value: nat,
                            j: nat, e: nat, t: nat)
    requires Reachable(s, mix, at) && Roomy(s, mix, at, used) && key !in at
    requires Destination(s, mix(key) % |s|, j)
    requires e < |s| && s[e].Empty? && e != j && t <= |s|
    ensures Balanced(s[j := Occupied(key, value)], mix, at[key := j], used + {key}, e, t)
  {
    var n := |s|;
    var h, d := Distance(e, mix(key) % n, n), Distance(e, j, n);
    assert Balanced(s, mix, at, used, e, t);
    HomesAfterWrite(mix, used, key, n, e, t);
    FullAfterWrite(s, key, value, j, e, t);
    AcrossAfterWrite(mix, at, key, n, j, e, t);
    BehindDestination(s, mix(key) % n, j, e);
    hide Homes, Full, Across, Destination;
    if key in used && h < t {
      if t <= d {
        Slack(s, mix, at, used, e, t, key);
      } else if s[j].Empty? {
        DifferentHomes(n, e, mix(key) % n, j);
        Slack(s, mix, at, used, e, d, key);
        CountsBehind(s, mix, at, used, e, j, t);
      }
    }
  }

  lemma DifferentHomes(n: nat, e: nat, a: nat, b: nat)
    requires e < n && a < n && b < n && a != b
    ensures Distance(e, a, n) != Distance(e, b, n)
  {
  }

  lemma WriteKeepsRoom<K(!new)>(s: seq<Slot<K>>, mix: K -> nat, at: map<K, nat>, used: set<K>, key: K, value: nat,
                         j: nat)
    requires Reachable(s, mix, at) && Roomy(s, mix, at, used) && key !in at
    requires Destination(s, mix(key) % |s|, j)
    ensures Roomy(s[j := Occupied(key, value)], mix, at[key := j], used + {key})
  {
    var n, now, atNow := |s|, s[j := Occupied(key, value)], at[key := j];
    forall e: nat, t: nat | e < n && now[e].Empty? && t <= n
      ensures Balanced(now, mix, atNow, used + {key}, e, t)
    {
      WriteKeepsBalance(s, mix, at, used, key, value, j, e, t);
    }
    hide Balanced, Reachable, Destination;
    WriteKeepsEmpty(s, mix, at, used, key, value, j);
    HomeInUse(s, mix(key) % n, j);
  }

  lemma WriteKeepsEmpty<K(!new)>(s: seq<Slot<K>>, mix: K -> nat, at: map<K, nat>, used: set<K>, key: K, value: nat,
                          j: nat)
    requires Reachable(s, mix, at) && Roomy(s, mix, at, used) && key !in at
    requires Destination(s, mix(key) % |s|, j)
    ensures HasEmpty(s[j := Occupied(key, value)]) || |used + {key}| >= |s|
  {
    var now := s[j := Occupied(key, value)];
    SubsetSize(used, used + {key});
    if i :| 0 <= i < |s| && i != j && s[i].Empty? {
      assert now[i].Empty?;
    } else if s[j].Empty? {
      LastEmptySlot(s, mix, at, used, key, j);
    }
  }

  lemma HomeInUse<K>(s: seq<Slot<K>>, home: nat, j: nat)
    requires Destination(s, home, j)
    ensures home == j || !s[home].Empty?
  {
  }

  /** When the last Empty slot goes, as many keys have been used as there are slots. */
  lemma LastEmptySlot<K(!new)>(s: seq<Slot<K>>, mix: K -> nat, at: map<K, nat>, used: set<K>, key: K, j: nat)
    requires Reachable(s, mix, at) && Roomy(s, mix, at, used) && key !in at
    requires Destination(s, mix(key) % |s|, j) && s[j].Empty?
    requires forall i :: 0 <= i < |s| && i != j ==> !s[i].Empty?
    ensures |used + {key}| >= |s|
  {
    var n := |s|;
    assert Balanced(s, mix, at, used, j, n);
    assert Homes(mix, used, n, j, 0, n) == used;
    assert Across(n, mix, at, j, n) == {};
    AllButOne(s, j);
    if key in used {
      assert used + {key} == used;
      forall i: nat | i < n && Distance(j, mix(key) % n, n) <= Distance(j, i, n) < n
        ensures s[i].Occupied?
      {
        assert Distance(mix(key) % n, i, n) < Distance(mix(key) % n, j, n);
      }
      Slack(s, mix, at, used, j, n, key);
    }
  }

  lemma AllButOne<K>(s: seq<Slot<K>>, j: nat)
    requires j < |s| && s[j].Empty? && forall i :: 0 <= i < |s| && i != j ==> !s[i].Empty?
    ensures |Full(s, j, |s|)| == |s| - 1
  {
    var all := Indices(|s|);
    assert Full(s, j, |s|) == all - {j};
  }

  // ---------- erasing, and the empty table ----------

  lemma EraseKeepsRoom<K(!new)>(s: seq<Slot<K>>, mix: K -> nat, at: map<K, nat>, used: set<K>, key: K)
    requires Reachable(s, mix, at) && Roomy(s, mix, at, used) && key in at
    ensures Roomy(s[at[key] := Tombstone], mix, at - {key}, used)
  {
    var n, now, atNow := |s|, s[at[key] := Tombstone], at - {key};
    assert s[at[key]].Occupied?;
    forall e: nat, t: nat | e < n && now[e].Empty? && t <= n
      ensures Balanced(now, mix, atNow, used, e, t)
    {
      assert Balanced(s, mix, at, used, e, t);
      assert Full(now, e, t) == Full(s, e, t);
      SubsetSize(Across(n, mix, atNow, e, t), Across(n, mix, at, e, t));
    }
    if j :| 0 <= j < n && s[j].Empty? {
      assert now[j].Empty?;
    }
  }

  lemma EmptyRoomy<K(!new)>(s: seq<Slot<K>>, mix: K -> nat)
    requires |s| > 0 && forall i :: 0 <= i < |s| ==> s[i].Empty?
    ensures Roomy(s, mix, map[], {})
  {
    assert s[0].Empty?;
    forall e: nat, t: nat | e < |s| && t <= |s|
      ensures Balanced(s, mix, map[], {}, e, t)
    {
      assert Full(s, e, t) == {} && Across(|s|, mix, map[], e, t) == {};
    }
  }
}
