/**
 The persisted open-addressing name index of a snapshot: how it is built, how it
 is validated, and how a lookup probes it (src/persist/snapshot.rs:148-176,
 450-537, 749-769).
 */
module NameTable {
  import opened Types
  import opened Arith
  import opened Strings
  import opened Perms

  /** An empty slot; node indices are 32-bit, so no index equals it. */
  const EMPTY: nat := 0xFFFF_FFFF

  // ---------------------------------------------------------------------
  // Capacity
  // ---------------------------------------------------------------------

  predicate IsPow2(m: nat) {
    m == 1 || (m > 1 && m % 2 == 0 && IsPow2(m / 2))
  }

  function DoubleUpTo(m: nat, want: nat): nat
    requires m > 0
    decreases if m < want then want - m else 0
  {
    if m >= want then m else DoubleUpTo(2 * m, want)
  }

  function Wanted(n: nat): nat { Max(n * 10 / 7 + 1, n + 1) }

  function BucketCapacity(n: nat): nat { Max(DoubleUpTo(1, Wanted(n)), 2) }

  lemma {:induction false} DoubleIsLeast(m: nat, want: nat)
    requires m > 0 && IsPow2(m)
    ensures var r := DoubleUpTo(m, want); IsPow2(r) && r >= want && (r == m || r < 2 * want)
    decreases if m < want then want - m else 0
  {
    if m < want {
      assert (2 * m) / 2 == m;
      DoubleIsLeast(2 * m, want);
    }
  }

  /** Between a power of two and its double there is no other. */
  lemma {:induction false} NoneBetween(m: nat, p: nat)
    requires IsPow2(m) && IsPow2(p) && m < p
    ensures 2 * m <= p
  {
    if m > 1 {
      NoneBetween(m / 2, p / 2);
    }
  }

  lemma {:induction false} NoneSmaller(m: nat, want: nat, p: nat)
    requires IsPow2(m) && IsPow2(p) && m <= p && want <= p
    ensures m > 0 && DoubleUpTo(m, want) <= p
    decreases if m < want then want - m else 0
  {
    if m < want {
      NoneBetween(m, p);
      assert (2 * m) / 2 == m;
      NoneSmaller(2 * m, want, p);
    }
  }

  /** A power of two, with a slot to spare and a load below 0.7, and less than twice what that takes. */
  lemma CapacityIsCanonical(n: nat)
    ensures var m := BucketCapacity(n);
      IsPow2(m) && n < m && 10 * n < 7 * m && m < 2 * Wanted(n) + 1
  {
    DoubleIsLeast(1, Wanted(n));
    assert 10 * n < 7 * (n * 10 / 7 + 1);
    assert IsPow2(2 / 2);
  }

  /** No smaller power of two from 2 on keeps the load below 0.7. */
  lemma CapacityIsLeast(n: nat, p: nat)
    requires IsPow2(p) && 2 <= p && 10 * n < 7 * p
    ensures BucketCapacity(n) <= p
  {
    assert Wanted(n) == n * 10 / 7 + 1 <= p;
    NoneSmaller(1, Wanted(n), p);
  }

  // ---------------------------------------------------------------------
  // Cyclic slots
  // ---------------------------------------------------------------------

  /** How many steps forward lead from slot a to slot b. */
  function Dist(a: nat, b: nat, m: nat): nat
    requires a < m && b < m
  {
    if a <= b then b - a else m - a + b
  }

  /** Bitwise and. */
  function And(a: nat, b: nat): (r: nat)
    ensures r <= b
  {
    if a == 0 || b == 0 then 0
    else 2 * And(a / 2, b / 2) + (if a % 2 == 1 && b % 2 == 1 then 1 else 0)
  }

  /** Masking with m - 1 takes off a multiple of m, when m is a power of two. */
  lemma {:induction false} MaskSplits(a: nat, m: nat) returns (q: nat)
    requires IsPow2(m)
    ensures a == q * m + And(a, m - 1)
  {
    if m == 1 {
      q := a;
    } else if a == 0 {
      q := 0;
    } else {
      var half := m / 2;
      assert (m - 1) / 2 == half - 1 && (m - 1) % 2 == 1;
      q := MaskSplits(a / 2, half);
      Doubled(q, half, m, And(a / 2, half - 1), a);
    }
  }

  lemma Doubled(q: nat, half: nat, m: nat, r: nat, a: nat)
    requires m == 2 * half && a / 2 == q * half + r
    ensures a == q * m + (2 * r + a % 2)
  {
    assert q * m == 2 * (q * half);
  }

  /** So it is the remainder by m. */
  lemma MaskIsRemainder(a: nat, m: nat)
    requires IsPow2(m)
    ensures And(a, m - 1) == a % m
  {
    var q := MaskSplits(a, m);
    var r := And(a, m - 1);
    OnlyRemainder(a, m, q, r);
  }

  lemma RemainderUpTo(a: nat, m: nat)
    requires a <= m && m > 0
    ensures a % m == if a == m then 0 else a
  {
  }

  function Next(slot: nat, m: nat): (r: nat)
    requires m > 0
    ensures r < m
  {
    And(slot + 1, m - 1)
  }

  /** In a table whose size is a power of two, the slot after the last is the first. */
  lemma NextGoesRound(slot: nat, m: nat)
    requires slot < m && IsPow2(m)
    ensures Next(slot, m) == if slot + 1 == m then 0 else slot + 1
  {
    MaskIsRemainder(slot + 1, m);
    RemainderUpTo(slot + 1, m);
  }

  /** The slot a hash starts probing at. */
  function Home(hash: string -> nat, name: string, m: nat): (r: nat)
    requires m > 0
    ensures r < m
  {
    And(hash(name), m - 1)
  }

  /** No empty slot from `home` up to, but not including, `slot`, going round at the end. */
  ghost predicate ClearPath(t: seq<nat>, home: nat, slot: nat)
    requires home < |t| && slot < |t|
  {
    forall s :: 0 <= s < |t| && Dist(home, s, |t|) < Dist(home, slot, |t|) ==> t[s] != EMPTY
  }

  // ---------------------------------------------------------------------
  // Tables
  // ---------------------------------------------------------------------

  ghost predicate InRange(t: seq<nat>, n: nat) {
    forall s :: 0 <= s < |t| && t[s] != EMPTY ==> t[s] < n
  }

  ghost predicate NoRepeats(t: seq<nat>) {
    forall s, s' :: 0 <= s < s' < |t| && t[s] != EMPTY ==> t[s] != t[s']
  }

  /** The occupied slots hold each of 0..n exactly once. */
  ghost predicate Bijective(t: seq<nat>, n: nat) {
    InRange(t, n) && NoRepeats(t) && forall i :: 0 <= i < n ==> i in t
  }

  /** Every entry can be reached from its name's hash. */
  ghost predicate Reachable(hash: string -> nat, names: seq<string>, t: seq<nat>)
    requires InRange(t, |names|)
  {
    forall s :: 0 <= s < |t| && t[s] != EMPTY ==> ClearPath(t, Home(hash, names[t[s]], |t|), s)
  }

  /** idx_of: probe at most `steps` slots from `slot`. */
  function Probe(names: seq<string>, t: seq<nat>, name: string, slot: nat, steps: nat): Option<nat>
    requires slot < |t|
    decreases steps
  {
    if steps == 0 || t[slot] == EMPTY || t[slot] >= |names| then None
    else if names[t[slot]] == name then Some(t[slot])
    else Probe(names, t, name, Next(slot, |t|), steps - 1)
  }

  function Lookup(hash: string -> nat, names: seq<string>, t: seq<nat>, name: string): Option<nat> {
    if t == [] then None else Probe(names, t, name, Home(hash, name, |t|), |t|)
  }

  method IdxOf(hash: string -> nat, names: seq<string>, t: seq<nat>, name: string) returns (r: Option<nat>)
    ensures r == Lookup(hash, names, t, name)
  {
    var m := |t|;
    if m == 0 {
      return None;
    }
    var slot: nat := Home(hash, name, m);
    for k := 0 to m
      invariant slot < m
      invariant Lookup(hash, names, t, name) == Probe(names, t, name, slot, m - k)
    {
      if t[slot] == EMPTY {
        return None;
      }
      var idx := t[slot];
      if idx >= |names| {
        return None;
      }
      if names[idx] == name {
        return Some(idx);
      }
      slot := Next(slot, m);
    }
    return None;
  }

  /** A hit is confirmed by name: no table whatever yields a wrong node. */
  lemma {:induction false} ProbeConfirms(names: seq<string>, t: seq<nat>, name: string, slot: nat, steps: nat)
    requires slot < |t|
    ensures var r := Probe(names, t, name, slot, steps); r.Some? ==> r.value < |names| && names[r.value] == name
    decreases steps
  {
    if steps > 0 && t[slot] < |names| {
      ProbeConfirms(names, t, name, Next(slot, |t|), steps - 1);
    }
  }

  lemma LookupConfirms(hash: string -> nat, names: seq<string>, t: seq<nat>, name: string)
    ensures var r := Lookup(hash, names, t, name); r.Some? ==> r.value < |names| && names[r.value] == name
    ensures name !in names ==> Lookup(hash, names, t, name).None?
  {
    if t != [] {
      ProbeConfirms(names, t, name, Home(hash, name, |t|), |t|);
    }
  }

  /** An occupied slot that is not the answer is passed over. */
  predicate Passed(names: seq<string>, t: seq<nat>, name: string, s: nat)
    requires s < |t|
  {
    t[s] != EMPTY && t[s] < |names| && names[t[s]] != name
  }

  /** Probing walks over passed slots to `slot`. */
  lemma {:induction false} ProbeWalks(names: seq<string>, t: seq<nat>, name: string, from: nat, slot: nat, steps: nat)
    requires IsPow2(|t|) && from < |t| && slot < |t| && Dist(from, slot, |t|) < steps <= |t|
    requires forall s :: 0 <= s < |t| && Dist(from, s, |t|) < Dist(from, slot, |t|) ==> Passed(names, t, name, s)
    ensures Probe(names, t, name, from, steps) == Probe(names, t, name, slot, steps - Dist(from, slot, |t|))
    decreases Dist(from, slot, |t|)
  {
    if from != slot {
      assert Dist(from, from, |t|) == 0;
      assert Passed(names, t, name, from);
      var next := Next(from, |t|);
      NextGoesRound(from, |t|);
      assert Dist(next, slot, |t|) == Dist(from, slot, |t|) - 1;
      forall s | 0 <= s < |t| && Dist(next, s, |t|) < Dist(next, slot, |t|) ensures Passed(names, t, name, s) {
        assert Dist(from, s, |t|) < Dist(from, slot, |t|);
      }
      ProbeWalks(names, t, name, next, slot, steps - 1);
    }
  }

  ghost predicate Unique(names: seq<string>) {
    forall i, j :: 0 <= i < j < |names| ==> names[i] != names[j]
  }

  lemma SortedAreUnique(names: seq<string>)
    requires StrictlySorted(names)
    ensures Unique(names)
  {
    forall i, j | 0 <= i < j < |names| ensures names[i] != names[j] {
      LtIrreflexive(names[i]);
    }
  }

  /** A node is found by its own name exactly when no empty slot lies on its path. */
  lemma FoundIffClear(hash: string -> nat, names: seq<string>, t: seq<nat>, slot: nat)
    requires IsPow2(|t|) && Unique(names) && InRange(t, |names|) && NoRepeats(t)
    requires slot < |t| && t[slot] != EMPTY
    ensures Lookup(hash, names, t, names[t[slot]]) == Some(t[slot]) <==> ClearPath(t, Home(hash, names[t[slot]], |t|), slot)
  {
    var name := names[t[slot]];
    var home := Home(hash, name, |t|);
    if ClearPath(t, home, slot) {
      PathIsPassed(names, t, slot, home, slot);
      ProbeWalks(names, t, name, home, slot, |t|);
    } else {
      var gap := FirstGap(t, home, slot);
      PathIsPassed(names, t, slot, home, gap);
      ProbeWalks(names, t, name, home, gap, |t|);
    }
  }

  /** Occupied slots before the entry hold other nodes, whose names differ. */
  lemma PathIsPassed(names: seq<string>, t: seq<nat>, slot: nat, home: nat, end: nat)
    requires Unique(names) && InRange(t, |names|) && NoRepeats(t)
    requires slot < |t| && t[slot] != EMPTY && home < |t| && end < |t|
    requires Dist(home, end, |t|) <= Dist(home, slot, |t|) && ClearPath(t, home, end)
    ensures forall s :: 0 <= s < |t| && Dist(home, s, |t|) < Dist(home, end, |t|) ==> Passed(names, t, names[t[slot]], s)
  {
    forall s | 0 <= s < |t| && Dist(home, s, |t|) < Dist(home, end, |t|) ensures Passed(names, t, names[t[slot]], s) {
      assert t[s] != EMPTY && t[s] < |names|;
      assert s != slot;
      assert t[s] != t[slot];
    }
  }

  lemma FirstGap(t: seq<nat>, home: nat, slot: nat) returns (gap: nat)
    requires home < |t| && slot < |t| && !ClearPath(t, home, slot)
    ensures gap < |t| && t[gap] == EMPTY
    ensures Dist(home, gap, |t|) < Dist(home, slot, |t|) && ClearPath(t, home, gap)
  {
    gap :| 0 <= gap < |t| && Dist(home, gap, |t|) < Dist(home, slot, |t|) && t[gap] == EMPTY;
    while !ClearPath(t, home, gap)
      invariant gap < |t| && t[gap] == EMPTY && Dist(home, gap, |t|) < Dist(home, slot, |t|)
      decreases Dist(home, gap, |t|)
    {
      var nearer :| 0 <= nearer < |t| && Dist(home, nearer, |t|) < Dist(home, gap, |t|) && t[nearer] == EMPTY;
      gap := nearer;
    }
  }

  // ---------------------------------------------------------------------
  // Building
  // ---------------------------------------------------------------------

  /** The table after the first `count` names went in. */
  ghost predicate Partial(hash: string -> nat, names: seq<string>, t: seq<nat>, count: nat) {
    Bijective(t, count) && count <= |names| && Reachable(hash, names, t)
  }

  /** Fewer entries than slots leave an empty slot. */
  lemma SlotToSpare(t: seq<nat>, n: nat) returns (free: nat)
    requires InRange(t, n) && NoRepeats(t) && n < |t|
    ensures free < |t| && t[free] == EMPTY
  {
    if s :| 0 <= s < |t| && t[s] == EMPTY {
      free := s;
    } else {
      DistinctBound(t, n);
      assert false;
    }
  }

  /** Filling the first empty slot after the new name's home keeps every path clear. */
  lemma InsertKeeps(hash: string -> nat, names: seq<string>, t: seq<nat>, i: nat, slot: nat)
    requires Partial(hash, names, t, i) && i < |names| <= EMPTY
    requires slot < |t| && t[slot] == EMPTY && ClearPath(t, Home(hash, names[i], |t|), slot)
    ensures Partial(hash, names, t[slot := i], i + 1)
  {
    var u := t[slot := i];
    forall j | 0 <= j < i + 1 ensures j in u {
      if j < i {
        assert j in t;
        var s :| 0 <= s < |t| && t[s] == j;
        assert u[s] == j;
      } else {
        assert u[slot] == j;
      }
    }
    forall s | 0 <= s < |u| && u[s] != EMPTY ensures ClearPath(u, Home(hash, names[u[s]], |u|), s) {
      assert s != slot ==> ClearPath(t, Home(hash, names[t[s]], |t|), s);
    }
  }

  /** Whatever an entry had to pass by was there before it: on the way to an entry lie only smaller ones. */
  ghost predicate FirstCome(hash: string -> nat, names: seq<string>, t: seq<nat>)
    requires InRange(t, |names|)
  {
    forall s, s' | 0 <= s < |t| && 0 <= s' < |t| && t[s] != EMPTY && t[s'] != EMPTY
        && Dist(Home(hash, names[t[s]], |t|), s', |t|) < Dist(Home(hash, names[t[s]], |t|), s, |t|) ::
      t[s'] < t[s]
  }

  lemma InsertLast(hash: string -> nat, names: seq<string>, t: seq<nat>, i: nat, slot: nat)
    requires Partial(hash, names, t, i) && i < |names| <= EMPTY && FirstCome(hash, names, t)
    requires slot < |t| && t[slot] == EMPTY
    ensures InRange(t[slot := i], |names|) && FirstCome(hash, names, t[slot := i])
  {
    var u := t[slot := i];
    forall s, s' | 0 <= s < |u| && 0 <= s' < |u| && u[s] != EMPTY && u[s'] != EMPTY
        && Dist(Home(hash, names[u[s]], |u|), s', |u|) < Dist(Home(hash, names[u[s]], |u|), s, |u|)
      ensures u[s'] < u[s]
    {
      if s != slot {
        assert ClearPath(t, Home(hash, names[t[s]], |t|), s);
      }
    }
  }

  /** The first empty slot at or after `slot`, looking at no more than `steps` slots. */
  function FreeFrom(t: seq<nat>, slot: nat, steps: nat): (r: nat)
    requires slot < |t|
    ensures r < |t|
    decreases steps
  {
    if steps == 0 || t[slot] == EMPTY then slot else FreeFrom(t, Next(slot, |t|), steps - 1)
  }

  /** From an occupied slot the probe moves on: nearer to any empty slot, and past one slot more. */
  lemma ProbeOn(t: seq<nat>, home: nat, slot: nat, free: nat)
    requires IsPow2(|t|) && home < |t| && slot < |t| && free < |t| && t[slot] != EMPTY && t[free] == EMPTY
    requires ClearPath(t, home, slot) && Dist(home, slot, |t|) <= Dist(home, free, |t|)
    ensures var next := Next(slot, |t|);
      && ClearPath(t, home, next)
      && Dist(home, next, |t|) == Dist(home, slot, |t|) + 1 <= Dist(home, free, |t|)
      && Dist(next, free, |t|) < Dist(slot, free, |t|)
  {
    NextGoesRound(slot, |t|);
  }

  /** Linear probing from the hash; ends because the distance to an empty slot shrinks. */
  method FreeSlot(t: array<nat>, home: nat, n: nat) returns (slot: nat)
    requires IsPow2(t.Length) && home < t.Length && n < t.Length && InRange(t[..], n) && NoRepeats(t[..])
    ensures slot < t.Length && t[slot] == EMPTY && ClearPath(t[..], home, slot)
    ensures slot == FreeFrom(t[..], home, t.Length)
  {
    ghost var free := SlotToSpare(t[..], n);
    slot := home;
    while t[slot] != EMPTY
      invariant slot < t.Length && ClearPath(t[..], home, slot)
      invariant Dist(home, slot, t.Length) <= Dist(home, free, t.Length)
      invariant FreeFrom(t[..], home, t.Length) == FreeFrom(t[..], slot, t.Length - Dist(home, slot, t.Length))
      decreases Dist(slot, free, t.Length)
    {
      ProbeOn(t[..], home, slot, free);
      slot := Next(slot, t.Length);
    }
  }

  /** The table once the first `count` names have gone in: hash and names determine it. */
  function TableOf(hash: string -> nat, names: seq<string>, m: nat, count: nat): (t: seq<nat>)
    requires m > 0 && count <= |names|
    ensures |t| == m
  {
    if count == 0 then seq(m, _ => EMPTY)
    else
      var t := TableOf(hash, names, m, count - 1);
      t[FreeFrom(t, Home(hash, names[count - 1], m), m) := count - 1]
  }

  /** One turn of the insertion loop. */
  method InsertName(hash: string -> nat, names: seq<string>, buckets: array<nat>, i: nat)
    requires Filled(hash, names, buckets[..], i) && i < |names| <= EMPTY
    requires IsPow2(buckets.Length) && i < buckets.Length
    modifies buckets
    ensures Filled(hash, names, buckets[..], i + 1)
    ensures buckets[..] == old(buckets[..])[FreeFrom(old(buckets[..]), Home(hash, names[i], buckets.Length), buckets.Length) := i]
  {
    assert Sealed(0);
    ghost var was := buckets[..];
    var slot := FreeSlot(buckets, Home(hash, names[i], buckets.Length), i);
    InsertKeeps(hash, names, was, i, slot);
    InsertLast(hash, names, was, i, slot);
    buckets[slot] := i;
    assert buckets[..] == was[slot := i];
  }

  lemma EmptyTable(hash: string -> nat, names: seq<string>, t: seq<nat>)
    requires forall s :: 0 <= s < |t| ==> t[s] == EMPTY
    ensures Partial(hash, names, t, 0) && FirstCome(hash, names, t)
  {
  }

  /** The table of the first `count` names, as a fact to carry around unopened. */
  ghost predicate Filled(hash: string -> nat, names: seq<string>, t: seq<nat>, count: nat) {
    forall i {:trigger Sealed(i)} :: Sealed(i) ==> Partial(hash, names, t, count) && FirstCome(hash, names, t)
  }

  /** Any names whatever, clustered or not, get a bijective table in which each is reachable. */
  method BuildNameBuckets(hash: string -> nat, names: seq<string>) returns (buckets: array<nat>)
    requires |names| <= EMPTY
    ensures fresh(buckets) && buckets.Length == BucketCapacity(|names|)
    ensures Partial(hash, names, buckets[..], |names|) && Filled(hash, names, buckets[..], |names|)
    ensures buckets[..] == TableOf(hash, names, BucketCapacity(|names|), |names|)
  {
    CapacityIsCanonical(|names|);
    var m := BucketCapacity(|names|);
    buckets := new nat[m](_ => EMPTY);
    EmptyTable(hash, names, buckets[..]);
    for i := 0 to |names|
      invariant Filled(hash, names, buckets[..], i)
      invariant buckets[..] == TableOf(hash, names, m, i)
    {
      InsertName(hash, names, buckets, i);
    }
    assert Sealed(0);
  }

  // ---------------------------------------------------------------------
  // Validating
  // ---------------------------------------------------------------------

  /** What a name table is for: canonical size, one entry per node, every node found by its name. */
  ghost predicate TableOk(hash: string -> nat, names: seq<string>, t: seq<nat>) {
    && |t| == BucketCapacity(|names|)
    && Bijective(t, |names|)
    && forall i :: 0 <= i < |names| ==> Lookup(hash, names, t, names[i]) == Some(i)
  }

  /** EMPTY slots among the first s. */
  function Empties(t: seq<nat>, s: nat): nat
    requires s <= |t|
  {
    if s == 0 then 0 else Empties(t, s - 1) + (if t[s - 1] == EMPTY then 1 else 0)
  }

  lemma {:induction false} EmptiesBetween(t: seq<nat>, a: nat, b: nat)
    requires a <= b <= |t|
    ensures Empties(t, a) <= Empties(t, b)
    ensures Empties(t, a) == Empties(t, b) <==> forall s :: a <= s < b ==> t[s] != EMPTY
    decreases b - a
  {
    if a < b {
      EmptiesBetween(t, a, b - 1);
    }
  }

  /** The empty slots on the cyclic path, from the prefix sums. */
  function EmptiesOnPath(t: seq<nat>, home: nat, slot: nat): int
    requires home < |t| && slot < |t|
  {
    if home <= slot then Empties(t, slot) - Empties(t, home)
    else (Empties(t, |t|) - Empties(t, home)) + Empties(t, slot)
  }

  lemma PathBySums(t: seq<nat>, home: nat, slot: nat)
    requires home < |t| && slot < |t|
    ensures EmptiesOnPath(t, home, slot) == 0 <==> ClearPath(t, home, slot)
  {
    if home <= slot {
      EmptiesBetween(t, home, slot);
      assert forall s :: 0 <= s < |t| ==> (Dist(home, s, |t|) < Dist(home, slot, |t|) <==> home <= s < slot);
    } else {
      EmptiesBetween(t, home, |t|);
      EmptiesBetween(t, 0, slot);
      assert forall s :: 0 <= s < |t| ==> (Dist(home, s, |t|) < Dist(home, slot, |t|) <==> home <= s < |t| || 0 <= s < slot);
    }
  }

  lemma {:induction false} AdjacentSorted(names: seq<string>)
    requires forall i :: 0 < i < |names| ==> Lt(names[i - 1], names[i])
    ensures StrictlySorted(names)
  {
    if names != [] {
      var last := |names| - 1;
      AdjacentSorted(names[..last]);
      forall i | 0 <= i < last ensures Lt(names[i], names[last]) {
        if i < last - 1 {
          assert Lt(names[..last][i], names[..last][last - 1]);
          LtTransitive(names[i], names[last - 1], names[last]);
        }
      }
    }
  }

  method IsNameSorted(names: seq<string>) returns (ok: bool)
    ensures ok <==> StrictlySorted(names)
  {
    var i := 1;
    while i < |names|
      invariant 1 <= i
      invariant forall j :: 0 < j < i && j < |names| ==> Lt(names[j - 1], names[j])
    {
      if !Lt(names[i - 1], names[i]) {
        return false;
      }
      i := i + 1;
    }
    AdjacentSorted(names);
    return true;
  }

  function Upto(n: nat): (r: set<nat>)
    ensures forall i: nat :: i in r <==> i < n
    ensures |r| == n
  {
    if n == 0 then {} else Upto(n - 1) + {n - 1}
  }

  lemma Subset(a: set<nat>, b: set<nat>)
    requires a <= b
    ensures |a| <= |b| && (|a| == |b| <==> a == b)
  {
    assert b == a + (b - a);
  }

  /** NotedAt, as a fact to carry around unopened. */
  ghost predicate Noted(t: seq<nat>, slot: nat, seen: seq<bool>, slotOf: seq<nat>, found: set<nat>, occupied: nat) {
    forall i {:trigger Sealed(i)} :: Sealed(i) ==> NotedAt(t, slot, seen, slotOf, found, occupied)
  }

  /** What the pass over the first `slot` slots has noted: which indices occur, and where. */
  ghost predicate NotedAt(t: seq<nat>, slot: nat, seen: seq<bool>, slotOf: seq<nat>, found: set<nat>, occupied: nat) {
    && slot <= |t| && |seen| == |slotOf| && found <= Upto(|seen|) && occupied == |found|
    && (forall i :: 0 <= i < |seen| ==> (seen[i] <==> i in found))
    && (forall i :: i in found ==> slotOf[i] < slot && t[slotOf[i]] == i)
    && (forall s :: 0 <= s < slot && t[s] != EMPTY ==> t[s] in found && slotOf[t[s]] == s)
  }

  lemma NoteOne(t: seq<nat>, slot: nat, seen: seq<bool>, slotOf: seq<nat>, found: set<nat>, occupied: nat)
    requires NotedAt(t, slot, seen, slotOf, found, occupied)
    requires slot < |t| && t[slot] != EMPTY && t[slot] < |seen| && !seen[t[slot]]
    ensures NotedAt(t, slot + 1, seen[t[slot] := true], slotOf[t[slot] := slot], found + {t[slot]}, occupied + 1)
  {
  }

  /** Where each index sits. */
  ghost predicate Located(t: seq<nat>, n: nat, slotOf: seq<nat>) {
    |slotOf| == n && forall i :: 0 <= i < n ==> slotOf[i] < |t| && t[slotOf[i]] == i
  }

  lemma AllNoted(t: seq<nat>, seen: seq<bool>, slotOf: seq<nat>, found: set<nat>, occupied: nat)
    requires Noted(t, |t|, seen, slotOf, found, occupied) && |seen| <= EMPTY
    ensures occupied == |seen| <==> Bijective(t, |seen|)
    ensures occupied == |seen| ==> Located(t, |seen|, slotOf)
  {
    assert Sealed(0);
    Subset(found, Upto(|seen|));
    if Bijective(t, |seen|) {
      forall i: nat | i < |seen| ensures i in found {
        assert i in t;
        var s :| 0 <= s < |t| && t[s] == i;
        assert t[s] in found;
      }
    }
    if occupied == |seen| {
      forall i | 0 <= i < |seen| ensures slotOf[i] < |t| && t[slotOf[i]] == i {
        assert (i as nat) in Upto(|seen|);
      }
      forall i | 0 <= i < |seen| ensures i in t {
        assert t[slotOf[i]] == i;
      }
    }
  }

  /** An index out of range, or one already noted: the table is not a bijection. */
  lemma NotBijective(t: seq<nat>, slot: nat, seen: seq<bool>, slotOf: seq<nat>, found: set<nat>, occupied: nat)
    requires NotedAt(t, slot, seen, slotOf, found, occupied)
    requires slot < |t| && t[slot] != EMPTY && (t[slot] < |seen| ==> seen[t[slot]])
    ensures !Bijective(t, |seen|)
  {
    if t[slot] < |seen| {
      assert t[slotOf[t[slot]]] == t[slot];
    }
  }

  lemma NoteNothing(t: seq<nat>, slot: nat, seen: seq<bool>, slotOf: seq<nat>, found: set<nat>, occupied: nat)
    requires Noted(t, slot, seen, slotOf, found, occupied) && slot < |t| && t[slot] == EMPTY
    ensures Noted(t, slot + 1, seen, slotOf, found, occupied)
  {
  }

  /** Notes one occupied slot, unless its index is out of range or was noted before. */
  method Note(t: seq<nat>, slot: nat, seen: array<bool>, slotOf: array<nat>, ghost found: set<nat>, ghost occupied: nat) returns (ok: bool)
    requires seen.Length == slotOf.Length && Noted(t, slot, seen[..], slotOf[..], found, occupied)
    requires slot < |t| && t[slot] != EMPTY
    modifies seen, slotOf
    ensures !ok ==> !Bijective(t, seen.Length)
    ensures ok ==> Noted(t, slot + 1, seen[..], slotOf[..], found + {t[slot]}, occupied + 1)
  {
    assert Sealed(0);
    var idx := t[slot];
    if idx >= seen.Length || seen[idx] {
      NotBijective(t, slot, seen[..], slotOf[..], found, occupied);
      return false;
    }
    NoteOne(t, slot, seen[..], slotOf[..], found, occupied);
    ghost var was, slots := seen[..], slotOf[..];
    seen[idx] := true;
    slotOf[idx] := slot;
    assert seen[..] == was[idx := true] && slotOf[..] == slots[idx := slot];
    return true;
  }

  /** The prefix sums of empty slots, up to `slot`. */
  ghost predicate Summed(t: seq<nat>, slot: nat, empties: seq<nat>) {
    slot <= |t| && |empties| == |t| + 1 && forall s :: 0 <= s <= slot ==> empties[s] == Empties(t, s)
  }

  method SumOne(t: seq<nat>, slot: nat, empties: array<nat>)
    requires slot < |t| && Summed(t, slot, empties[..])
    modifies empties
    ensures Summed(t, slot + 1, empties[..])
  {
    ghost var was := empties[..];
    empties[slot + 1] := empties[slot] + (if t[slot] == EMPTY then 1 else 0);
    assert empties[..] == was[slot + 1 := Empties(t, slot + 1)];
  }

  /** One pass over the slots: the bijection check, each entry's slot, and the prefix sums of empty slots. */
  method ScanSlots(t: seq<nat>, n: nat) returns (ok: bool, slotOf: array<nat>, empties: array<nat>)
    requires n <= EMPTY
    ensures ok <==> Bijective(t, n)
    ensures ok ==> Located(t, n, slotOf[..]) && Summed(t, |t|, empties[..])
  {
    var seen := new bool[n](_ => false);
    slotOf := new nat[n](_ => 0);
    empties := new nat[|t| + 1](_ => 0);
    var occupied := 0;
    ghost var found: set<nat> := {};
    for slot := 0 to |t|
      invariant Summed(t, slot, empties[..])
      invariant Noted(t, slot, seen[..], slotOf[..], found, occupied)
    {
      SumOne(t, slot, empties);
      if t[slot] == EMPTY {
        NoteNothing(t, slot, seen[..], slotOf[..], found, occupied);
        continue;
      }
      var noted := Note(t, slot, seen, slotOf, found, occupied);
      if !noted {
        return false, slotOf, empties;
      }
      occupied := occupied + 1;
      found := found + {t[slot]};
    }
    AllNoted(t, seen[..], slotOf[..], found, occupied);
    return occupied == n, slotOf, empties;
  }

  /** Checks every node's path with two subtractions. */
  method AllReachable(hash: string -> nat, names: seq<string>, t: seq<nat>, slotOf: array<nat>, empties: array<nat>) returns (ok: bool)
    requires Located(t, |names|, slotOf[..]) && Summed(t, |t|, empties[..])
    requires |names| <= EMPTY && Unique(names) && Bijective(t, |names|) && IsPow2(|t|)
    ensures ok <==> forall i :: 0 <= i < |names| ==> Lookup(hash, names, t, names[i]) == Some(i)
  {
    for i := 0 to |names|
      invariant forall j :: 0 <= j < i ==> Lookup(hash, names, t, names[j]) == Some(j)
    {
      assert slotOf[..][i] == slotOf[i];
      assert forall s :: 0 <= s <= |t| ==> empties[..][s] == empties[s];
      var slot := slotOf[i];
      var home := Home(hash, names[i], |t|);
      var onPath: nat;
      if home <= slot {
        EmptiesBetween(t, home, slot);
        onPath := empties[slot] - empties[home];
      } else {
        EmptiesBetween(t, home, |t|);
        onPath := (empties[|t|] - empties[home]) + empties[slot];
      }
      PathBySums(t, home, slot);
      FoundIffClear(hash, names, t, slot);
      if onPath != 0 {
        return false;
      }
    }
    return true;
  }

  /**
   The name checks of validate_csr accept exactly the tables that serve: sorted
   names, canonical size, a bijection, and every lookup by name resolving.
   */
  method ValidateNames(hash: string -> nat, names: seq<string>, t: seq<nat>) returns (ok: bool)
    requires |names| <= EMPTY
    ensures ok <==> StrictlySorted(names) && TableOk(hash, names, t)
  {
    var sorted := IsNameSorted(names);
    if !sorted {
      return false;
    }
    SortedAreUnique(names);
    if |t| != BucketCapacity(|names|) {
      return false;
    }
    CapacityIsCanonical(|names|);
    if !IsPow2(|t|) || |t| <= |names| {
      assert false;
    }
    var bijective, slotOf, empties := ScanSlots(t, |names|);
    if !bijective {
      return false;
    }
    ok := AllReachable(hash, names, t, slotOf, empties);
  }

  /** In an accepted table a lookup finds a name's node if there is one, and nothing otherwise. */
  lemma AcceptedTableServes(hash: string -> nat, names: seq<string>, t: seq<nat>, name: string)
    requires StrictlySorted(names) && TableOk(hash, names, t)
    ensures match Lookup(hash, names, t, name)
      case Some(i) => i < |names| && names[i] == name
      case None => name !in names
  {
    LookupConfirms(hash, names, t, name);
    if name in names {
      var i :| 0 <= i < |names| && names[i] == name;
      assert Lookup(hash, names, t, names[i]) == Some(i);
    }
  }

  /** What the writer builds is what the validator accepts. */
  lemma BuiltTableIsOk(hash: string -> nat, names: seq<string>, t: seq<nat>)
    requires |names| <= EMPTY && Unique(names)
    requires |t| == BucketCapacity(|names|) && Partial(hash, names, t, |names|)
    ensures TableOk(hash, names, t)
  {
    CapacityIsCanonical(|names|);
    forall i | 0 <= i < |names| ensures Lookup(hash, names, t, names[i]) == Some(i) {
      assert i in t;
      var s :| 0 <= s < |t| && t[s] == i;
      FoundIffClear(hash, names, t, s);
    }
  }
}
