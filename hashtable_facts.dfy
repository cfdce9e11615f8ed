/** What `new`, `set` and `get` of hashmap.h guarantee, proved about the
    functions of HashTable. */
module HashTableFacts {
  import opened Options
  import opened HashTable

  /** Capacities are multiples of four (so `cap * 0.75` is exact), at least 64,
      and stay capacities when doubled. */
  lemma {:induction false} CapacityFacts(c: nat)
    requires IsCapacity(c)
    ensures c >= InitialCapacity && c % 4 == 0 && IsCapacity(2 * c)
  {
    if c != InitialCapacity {
      CapacityFacts(c / 2);
    }
  }

  lemma {:induction false} BucketsOfEmpty<V>(n: nat)
    ensures Buckets(EmptySlots<V>(n)) == multiset{}
  {
    if n > 0 {
      assert EmptySlots<V>(n)[..n - 1] == EmptySlots<V>(n - 1);
      BucketsOfEmpty<V>(n - 1);
    }
  }

  /** The stored buckets of two slot ranges side by side add up. */
  lemma {:induction false} BucketsConcat<V>(a: Slots<V>, b: Slots<V>)
    ensures Buckets(a + b) == Buckets(a) + Buckets(b)
  {
    if b != [] {
      var b' := b[..|b| - 1];
      assert (a + b)[..|a + b| - 1] == a + b';
      BucketsConcat(a, b');
    } else {
      assert a + b == a;
    }
  }

  /** Filling one empty slot adds exactly its bucket to the stored multiset. */
  lemma BucketsFill<V>(s: Slots<V>, p: nat, b: Bucket<V>)
    requires p < |s| && s[p].None?
    ensures Buckets(s[p := Some(b)]) == Buckets(s) + multiset{b}
  {
    var front, back := s[..p], s[p + 1..];
    assert s == front + ([s[p]] + back);
    assert s[p := Some(b)] == front + ([Some(b)] + back);
    BucketsConcat(front, [s[p]] + back);
    BucketsConcat(front, [Some(b)] + back);
    BucketsConcat([s[p]], back);
    BucketsConcat([Some(b)], back);
    assert Buckets([s[p]]) == multiset{} by { assert [s[p]][..0] == []; }
    assert Buckets([Some(b)]) == multiset{b} by { assert [Some(b)][..0] == []; }
  }

  /** A bucket is stored exactly when some slot holds it. */
  lemma {:induction false} BucketsHeld<V>(s: Slots<V>, b: Bucket<V>)
    ensures b in Buckets(s) <==> exists p :: 0 <= p < |s| && s[p] == Some(b)
  {
    if s != [] {
      var init := s[..|s| - 1];
      BucketsHeld(init, b);
      if b in Buckets(s) && b !in Buckets(init) {
        assert s[|s| - 1] == Some(b);
      }
      if exists p :: 0 <= p < |s| && s[p] == Some(b) {
        var p :| 0 <= p < |s| && s[p] == Some(b);
        if p < |s| - 1 {
          assert init[p] == Some(b);
        }
      }
    }
  }

  lemma PlaceBuckets<V>(s: Slots<V>, h: nat, b: Bucket<V>)
    requires |s| > 0
    ensures Buckets(Place(s, h, b)) == Buckets(s) + (if FirstEmpty(s, h, 0).Some? then multiset{b} else multiset{})
  {
    match FirstEmpty(s, h, 0)
    case None =>
    case Some(j) => BucketsFill(s, Probe(h, j, |s|), b);
  }

  /** Rehashing moves buckets and never copies them: every bucket of the new slots
      came from the old ones, at most as often. */
  lemma {:induction false} RehashMoves<V>(from: Slots<V>, hash: HashFn, newCap: nat, n: nat)
    requires newCap > 0 && n <= |from|
    ensures Buckets(RehashPrefix(from, hash, newCap, n)) <= Buckets(from[..n])
  {
    if n == 0 {
      BucketsOfEmpty<V>(newCap);
    } else {
      RehashMoves(from, hash, newCap, n - 1);
      assert from[..n][..n - 1] == from[..n - 1];
      assert Buckets(from[..n]) == Buckets(from[..n - 1]) + Held(from[n - 1]);
      var acc := RehashPrefix(from, hash, newCap, n - 1);
      match from[n - 1]
      case None =>
        assert RehashPrefix(from, hash, newCap, n) == acc;
      case Some(b) =>
        assert RehashPrefix(from, hash, newCap, n) == Place(acc, hash(b.key), b);
        PlaceBuckets(acc, hash(b.key), b);
    }
  }

  /** The resize step creates and duplicates no bucket (the capacity and `size`
      are stated by Grow itself). */
  lemma GrowFacts<V>(t: Table<V>, hash: HashFn)
    requires |t.slots| > 0
    ensures Buckets(Grow(t, hash).slots) <= Buckets(t.slots)
  {
    if NeedsGrow(t) {
      RehashMoves(t.slots, hash, 2 * |t.slots|, |t.slots|);
      assert t.slots[..|t.slots|] == t.slots;
    }
  }

  /** The insert step of `set`, after the resize: either the probe sequence of the
      key has an empty slot, and then the first one receives the new bucket, `size`
      grows by one and no other slot changes; or it has none, and then nothing
      changes at all. */
  lemma SetOutcome<V>(t: Table<V>, hash: HashFn, key: string, value: V)
    requires |t.slots| > 0
    ensures var g := Grow(t, hash); var r := TableSet(t, hash, key, value);
      var full := forall i :: 0 <= i < |g.slots| ==> g.slots[Probe(hash(key), i, |g.slots|)].Some?;
      (full ==> r == g) &&
      (!full ==> r.size == t.size + 1 &&
                 exists j :: 0 <= j < |g.slots| && g.slots[Probe(hash(key), j, |g.slots|)].None? &&
                             (forall k :: 0 <= k < j ==> g.slots[Probe(hash(key), k, |g.slots|)].Some?) &&
                             r.slots == g.slots[Probe(hash(key), j, |g.slots|) := Some(Bucket(key, value))]) &&
      Buckets(r.slots) == Buckets(g.slots) + (if full then multiset{} else multiset{Bucket(key, value)})
  {
    GrowFacts(t, hash);
    var g := Grow(t, hash);
    var h := hash(key);
    PlaceBuckets(g.slots, h, Bucket(key, value));
    match FirstEmpty(g.slots, h, 0)
    case None =>
    case Some(j) =>
      assert !(g.slots[Probe(h, j, |g.slots|)].Some?);
  }

  lemma SubMultisetCard<T>(a: multiset<T>, b: multiset<T>)
    requires a <= b
    ensures |a| <= |b|
  {
    assert b == a + (b - a);
  }

  /** The load arithmetic behind the invariant: one insert after the resize test
      keeps `4 * size <= 3 * cap`. */
  lemma LoadAfterInsert(size: nat, c: nat)
    requires IsCapacity(c) && 4 * size <= 3 * c
    ensures var c' := if 4 * size >= 3 * c then 2 * c else c; 4 * (size + 1) <= 3 * c'
  {
    CapacityFacts(c);
    assert c == 4 * (c / 4);
  }

  /** `set` keeps the map invariant: starting from `new`, the capacity stays
      64 * 2^k, the load stays at most three quarters, and `size` bounds the
      stored buckets. */
  lemma SetPreservesValid<V>(t: Table<V>, hash: HashFn, key: string, value: V)
    requires TableValid(t, hash)
    ensures TableValid(TableSet(t, hash, key, value), hash)
  {
    SetOnProbe(t, hash, key, value);
    CapacityFacts(|t.slots|);
    GrowFacts(t, hash);
    LoadAfterInsert(t.size, |t.slots|);
    var g := Grow(t, hash);
    SubMultisetCard(Buckets(g.slots), Buckets(t.slots));
    var h := hash(key);
    var r := TableSet(t, hash, key, value);
    assert r == Insert(g, hash, key, value);
    PlaceBuckets(g.slots, h, Bucket(key, value));
    if FirstEmpty(g.slots, h, 0).Some? {
      assert r.size == g.size + 1 && r.slots == Place(g.slots, h, Bucket(key, value));
    } else {
      assert r == g;
    }
  }

  lemma NewTableValid<V>(hash: HashFn)
    ensures |NewTable<V>().slots| == 64 && NewTable<V>().size == 0
    ensures forall i :: 0 <= i < 64 ==> NewTable<V>().slots[i] == None
    ensures TableValid(NewTable<V>(), hash)
  {
    BucketsOfEmpty<V>(InitialCapacity);
  }

  /** Slots with no bucket trivially keep every bucket on its probe sequence. */
  lemma EmptyOnProbe<V>(n: nat, hash: HashFn)
    requires n > 0
    ensures OnProbe(EmptySlots<V>(n), hash)
  {
  }

  /** `Place` puts the bucket on its own probe sequence, so the invariant holds
      afterwards. */
  lemma PlaceOnProbe<V>(s: Slots<V>, hash: HashFn, b: Bucket<V>)
    requires OnProbe(s, hash)
    ensures OnProbe(Place(s, hash(b.key), b), hash)
  {
    var h := hash(b.key);
    var r := Place(s, h, b);
    match FirstEmpty(s, h, 0)
    case None =>
    case Some(j) =>
      var q := Probe(h, j, |s|);
      assert r == s[q := Some(b)];
      forall p | 0 <= p < |r| && r[p].Some?
        ensures OnOwnProbe(r, hash, p)
      {
        if p == q {
          assert p == Probe(hash(r[p].value.key), j, |r|);
        } else {
          assert r[p] == s[p] && OnOwnProbe(s, hash, p);
        }
      }
  }

  /** Each step of the rehash places a bucket on its probe sequence in the new
      slots, so the whole rehash does. */
  lemma {:induction false} RehashOnProbe<V>(from: Slots<V>, hash: HashFn, newCap: nat, n: nat)
    requires newCap > 0 && n <= |from|
    ensures OnProbe(RehashPrefix(from, hash, newCap, n), hash)
  {
    if n == 0 {
      EmptyOnProbe<V>(newCap, hash);
    } else {
      RehashOnProbe(from, hash, newCap, n - 1);
      match from[n - 1]
      case None =>
      case Some(b) =>
        PlaceOnProbe(RehashPrefix(from, hash, newCap, n - 1), hash, b);
    }
  }

  /** `set`, resize included, keeps every bucket on its own probe sequence. */
  lemma SetOnProbe<V>(t: Table<V>, hash: HashFn, key: string, value: V)
    requires OnProbe(t.slots, hash)
    ensures OnProbe(TableSet(t, hash, key, value).slots, hash)
  {
    var g := Grow(t, hash);
    if NeedsGrow(t) {
      RehashOnProbe(t.slots, hash, 2 * |t.slots|, |t.slots|);
    }
    assert OnProbe(g.slots, hash);
    assert TableSet(t, hash, key, value) == Insert(g, hash, key, value);
    match FirstEmpty(g.slots, hash(key), 0)
    case None =>
    case Some(_) =>
      PlaceOnProbe(g.slots, hash, Bucket(key, value));
  }

  /** `get` finds every stored key: a bucket in a valid map lies on its key's
      probe sequence, which `get` walks to the end. */
  lemma StoredIsFound<V>(t: Table<V>, hash: HashFn, b: Bucket<V>)
    requires TableValid(t, hash) && b in Buckets(t.slots)
    ensures TableGet(t, hash, b.key).Some?
  {
    var n := |t.slots|;
    BucketsHeld(t.slots, b);
    var p :| 0 <= p < n && t.slots[p] == Some(b);
    assert OnOwnProbe(t.slots, hash, p);
    var j :| 0 <= j < n && p == Probe(hash(b.key), j, n);
    assert HoldsKey(t.slots[Probe(hash(b.key), j, n)], b.key);
  }

  /** A key stays retrievable across a later `set` of any key, unless the resize
      of that `set` dropped its bucket. */
  lemma FoundAfterSet<V>(t: Table<V>, hash: HashFn, key: string, value: V, b: Bucket<V>)
    requires TableValid(t, hash) && b in Buckets(Grow(t, hash).slots)
    ensures TableGet(TableSet(t, hash, key, value), hash, b.key).Some?
  {
    SetPreservesValid(t, hash, key, value);
    SetOutcome(t, hash, key, value);
    StoredIsFound(TableSet(t, hash, key, value), hash, b);
  }

  /** One step of the rehash: the stored multiset gains the old slot's bucket
      exactly when its probe sequence in the new slots still has an empty slot. */
  lemma RehashStep<V>(from: Slots<V>, hash: HashFn, newCap: nat, n: nat)
    requires newCap > 0 && n < |from|
    ensures var acc := RehashPrefix(from, hash, newCap, n);
            Buckets(RehashPrefix(from, hash, newCap, n + 1)) ==
              Buckets(acc) + (if from[n].Some? && FirstEmpty(acc, hash(from[n].value.key), 0).Some?
                              then multiset{from[n].value} else multiset{})
  {
    var acc := RehashPrefix(from, hash, newCap, n);
    match from[n]
    case None =>
    case Some(b) =>
      PlaceBuckets(acc, hash(b.key), b);
  }

  /** `get` after a successful `set` of a key the map did not hold returns the value
      just set, also when the `set` had to resize first. */
  lemma GetAfterSetFresh<V>(t: Table<V>, hash: HashFn, key: string, value: V)
    requires |t.slots| > 0
    requires forall p :: 0 <= p < |t.slots| ==> !HoldsKey(t.slots[p], key)
    requires TableSet(t, hash, key, value).size == t.size + 1
    ensures TableGet(TableSet(t, hash, key, value), hash, key) == Some(value)
  {
    GrowFacts(t, hash);
    var g := Grow(t, hash);
    var h := hash(key);
    var n := |g.slots|;
    forall q | 0 <= q < n
      ensures !HoldsKey(g.slots[q], key)
    {
      if g.slots[q].Some? {
        var b := g.slots[q].value;
        BucketsHeld(g.slots, b);
        BucketsHeld(t.slots, b);
        var p :| 0 <= p < |t.slots| && t.slots[p] == Some(b);
        assert !HoldsKey(t.slots[p], key);
      }
    }
    var r := TableSet(t, hash, key, value);
    assert r == Insert(g, hash, key, value);
    var j := FirstEmpty(g.slots, h, 0).value;
    var pos := Probe(h, j, n);
    assert r.slots == g.slots[pos := Some(Bucket(key, value))];
    forall k | 0 <= k < j
      ensures !HoldsKey(r.slots[Probe(h, k, n)], key)
    {
      assert g.slots[Probe(h, k, n)].Some?;
    }
    assert HoldsKey(r.slots[Probe(h, j, n)], key);
    var got := Lookup(r.slots, h, key, 0);
    assert got.Some?;
    var j' :| 0 <= j' < n && r.slots[Probe(h, j', n)] == Some(Bucket(key, got.value))
              && forall k :: 0 <= k < j' ==> !HoldsKey(r.slots[Probe(h, k, n)], key);
    assert j' == j;
  }

  /** `set` never replaces an existing bucket with an equal key: without a resize
      every occupied slot keeps its bucket, so a successful `set` of a key already
      present leaves two buckets with that key. */
  lemma SetKeepsEqualKey<V>(t: Table<V>, hash: HashFn, key: string, value: V, p: nat)
    requires |t.slots| > 0 && !NeedsGrow(t)
    requires p < |t.slots| && HoldsKey(t.slots[p], key)
    ensures var r := TableSet(t, hash, key, value);
      r.slots[p] == t.slots[p] &&
      (r.size == t.size + 1 ==>
         exists q :: 0 <= q < |r.slots| && q != p && r.slots[q] == Some(Bucket(key, value)))
  {
    var h := hash(key);
    var r := TableSet(t, hash, key, value);
    assert r == Insert(t, hash, key, value);
    var fe := FirstEmpty(t.slots, h, 0);
    if fe.Some? {
      var q := Probe(h, fe.value, |t.slots|);
      assert r.slots == t.slots[q := Some(Bucket(key, value))];
      assert q != p;
      assert r.slots[q] == Some(Bucket(key, value));
    } else {
      assert r == t;
    }
  }

  /** Consequently `get` keeps returning the older value: when the probe sequence of
      the key is occupied up to a bucket holding the key (as it is for a key that
      `set` put there), a `set` without a resize does not change what `get` returns. */
  lemma GetIgnoresLaterSet<V>(t: Table<V>, hash: HashFn, key: string, value: V, j: nat)
    requires |t.slots| > 0 && !NeedsGrow(t) && j < |t.slots|
    requires forall i :: 0 <= i <= j ==> t.slots[Probe(hash(key), i, |t.slots|)].Some?
    requires HoldsKey(t.slots[Probe(hash(key), j, |t.slots|)], key)
    ensures TableGet(t, hash, key).Some?
    ensures TableGet(TableSet(t, hash, key, value), hash, key) == TableGet(t, hash, key)
  {
    var h := hash(key);
    var n := |t.slots|;
    var r := TableSet(t, hash, key, value);
    assert r == Insert(t, hash, key, value);
    forall i | 0 <= i <= j
      ensures r.slots[Probe(h, i, n)] == t.slots[Probe(h, i, n)]
    {
      match FirstEmpty(t.slots, h, 0)
      case None =>
      case Some(e) =>
        assert t.slots[Probe(h, e, n)].None?;
        assert Probe(h, e, n) != Probe(h, i, n);
    }
    var a := Lookup(t.slots, h, key, 0);
    var b := Lookup(r.slots, h, key, 0);
    assert HoldsKey(r.slots[Probe(h, j, n)], key);
    assert a.Some? && b.Some?;
    var ja :| 0 <= ja < n && t.slots[Probe(h, ja, n)] == Some(Bucket(key, a.value))
              && forall k :: 0 <= k < ja ==> !HoldsKey(t.slots[Probe(h, k, n)], key);
    var jb :| 0 <= jb < n && r.slots[Probe(h, jb, n)] == Some(Bucket(key, b.value))
              && forall k :: 0 <= k < jb ==> !HoldsKey(r.slots[Probe(h, k, n)], key);
    assert ja <= j && jb <= j;
  }

  /** The probe loop's exit facts pin down FirstEmpty. */
  lemma FirstEmptyAt<V>(s: Slots<V>, h: nat, j: nat)
    requires j < |s| && s[Probe(h, j, |s|)].None?
    requires forall k :: 0 <= k < j ==> s[Probe(h, k, |s|)].Some?
    ensures FirstEmpty(s, h, 0) == Some(j)
  {
  }

  lemma FirstEmptyNone<V>(s: Slots<V>, h: nat)
    requires |s| > 0
    requires forall k :: 0 <= k < |s| ==> s[Probe(h, k, |s|)].Some?
    ensures FirstEmpty(s, h, 0) == None
  {
  }
}
