/** The abstract behaviour of the open-addressing map of hashmap.h
    (DEFINE_HASHMAP), as functions on values: a table is its `size` counter and its
    slot array, and its capacity is the number of slots.  The class in hashmap.dfy
    runs the same algorithm in place on an array and is proved against these
    functions; the parser builds its objects with them. */
module HashTable {
  import opened Options

  /** The result type of the 32-bit murmur hash. */
  type U32 = x: nat | x < 0x1_0000_0000

  /** The hash of a key.  The murmur hash itself is foreign code, so every
      operation takes the hash function as a parameter and nothing is assumed
      about it beyond its 32-bit range. */
  type HashFn = string -> U32

  /** Capacity of a new map (hashmap.h, `hashmap->cap = 64`). */
  const InitialCapacity: nat := 64

  /** A key/value pair; a slot holds a pointer to one or NULL. */
  datatype Bucket<V> = Bucket(key: string, value: V)

  type Slots<V> = seq<Option<Bucket<V>>>

  /** The map's fields: `size` counts the successful inserts; `cap` is `|slots|`. */
  datatype Table<V> = Table(size: nat, slots: Slots<V>)

  /** Capacities a map can have: 64 doubled any number of times. */
  ghost predicate IsCapacity(c: nat)
  {
    c == InitialCapacity || (c > InitialCapacity && c % 2 == 0 && IsCapacity(c / 2))
  }

  /** The invariant every map reachable from `new` keeps: a capacity of 64 * 2^k,
      a load of at most three quarters, no more stored buckets than `size`
      (buckets can be lost by a rehash, never gained), and every bucket on the
      probe sequence of its own key. */
  ghost predicate TableValid<V>(t: Table<V>, hash: HashFn)
  {
    IsCapacity(|t.slots|) && 4 * t.size <= 3 * |t.slots| && |Buckets(t.slots)| <= t.size
    && OnProbe(t.slots, hash)
  }

  /** Every occupied slot is one of the `cap` slots probed for the key of the
      bucket it holds, so `get` visits it. */
  ghost predicate OnProbe<V>(s: Slots<V>, hash: HashFn)
  {
    |s| > 0 && forall p :: 0 <= p < |s| && s[p].Some? ==> OnOwnProbe(s, hash, p)
  }

  /** Slot `p` is probed, at some probe number below `cap`, for the key it holds. */
  ghost predicate OnOwnProbe<V>(s: Slots<V>, hash: HashFn, p: nat)
    requires p < |s| && s[p].Some?
  {
    exists j :: 0 <= j < |s| && p == Probe(hash(s[p].value.key), j, |s|)
  }

  /** The resize test `size >= cap * 0.75`, exact as an integer comparison because
      the capacity is a multiple of four. */
  predicate NeedsGrow<V>(t: Table<V>)
  {
    4 * t.size >= 3 * |t.slots|
  }

  function EmptySlots<V>(n: nat): (s: Slots<V>)
    ensures |s| == n && forall i :: 0 <= i < n ==> s[i] == None
  {
    seq(n, _ => None)
  }

  /** `hashmap_##name##_new` (allocation assumed to succeed). */
  function NewTable<V>(): Table<V>
  {
    Table(0, EmptySlots(InitialCapacity))
  }

  /** The i-th slot probed for a key of hash `h`: `(h % cap + i * i) % cap`. */
  function Probe(h: nat, i: nat, cap: nat): (p: nat)
    requires cap > 0
    ensures p < cap
  {
    (h % cap + i * i) % cap
  }

  /** The multiset of buckets stored in the slots. */
  function Buckets<V(==)>(s: Slots<V>): multiset<Bucket<V>>
  {
    if s == [] then multiset{} else Buckets(s[..|s| - 1]) + Held(s[|s| - 1])
  }

  function Held<V(==)>(o: Option<Bucket<V>>): multiset<Bucket<V>>
  {
    if o.Some? then multiset{o.value} else multiset{}
  }

  predicate HoldsKey<V>(o: Option<Bucket<V>>, key: string)
  {
    o.Some? && o.value.key == key
  }

  /** The first probe number at or after `i` whose slot is empty, if the probe
      sequence has one before it runs out at `cap`. */
  function FirstEmpty<V>(s: Slots<V>, h: nat, i: nat): (r: Option<nat>)
    requires |s| > 0
    decreases |s| - i
    ensures r.Some? ==> i <= r.value < |s| && s[Probe(h, r.value, |s|)].None?
    ensures r.Some? ==> forall j :: i <= j < r.value ==> s[Probe(h, j, |s|)].Some?
    ensures r.None? ==> forall j :: i <= j < |s| ==> s[Probe(h, j, |s|)].Some?
  {
    if i >= |s| then None
    else if s[Probe(h, i, |s|)].None? then Some(i)
    else FirstEmpty(s, h, i + 1)
  }

  /** Stores `b` in the first empty slot of the probe sequence of `h`; when the
      sequence has no empty slot the slots are returned unchanged (the bucket is lost). */
  function Place<V>(s: Slots<V>, h: nat, b: Bucket<V>): (r: Slots<V>)
    requires |s| > 0
    ensures |r| == |s|
    ensures FirstEmpty(s, h, 0).None? ==> r == s
    ensures FirstEmpty(s, h, 0).Some? ==> r[Probe(h, FirstEmpty(s, h, 0).value, |s|)] == Some(b)
  {
    match FirstEmpty(s, h, 0)
    case None => s
    case Some(j) => s[Probe(h, j, |s|) := Some(b)]
  }

  /** The new slot array after moving the buckets of `from[..n]`, in slot order, into
      `newCap` empty slots, each by its own probe sequence. */
  function RehashPrefix<V>(from: Slots<V>, hash: HashFn, newCap: nat, n: nat): (r: Slots<V>)
    requires newCap > 0 && n <= |from|
    ensures |r| == newCap
  {
    if n == 0 then EmptySlots(newCap)
    else
      var acc := RehashPrefix(from, hash, newCap, n - 1);
      match from[n - 1]
      case None => acc
      case Some(b) => Place(acc, hash(b.key), b)
  }

  /** The resize step of `set`: doubles the capacity and rehashes when the load
      reaches three quarters; `size` is not recomputed. */
  function Grow<V>(t: Table<V>, hash: HashFn): (r: Table<V>)
    requires |t.slots| > 0
    ensures r.size == t.size
    ensures |r.slots| == if NeedsGrow(t) then 2 * |t.slots| else |t.slots|
  {
    if NeedsGrow(t) then Table(t.size, RehashPrefix(t.slots, hash, 2 * |t.slots|, |t.slots|))
    else t
  }

  /** The insert step of `set`: a fresh bucket in the first empty slot of the key's
      probe sequence and `size + 1`, or no change when there is none. */
  function Insert<V>(t: Table<V>, hash: HashFn, key: string, value: V): (r: Table<V>)
    requires |t.slots| > 0
    ensures |r.slots| == |t.slots|
    ensures r.size == t.size || r.size == t.size + 1
    ensures r.size == t.size ==> r == t
  {
    var h := hash(key);
    match FirstEmpty(t.slots, h, 0)
    case None => t
    case Some(j) => Table(t.size + 1, Place(t.slots, h, Bucket(key, value)))
  }

  /** `hashmap_##name##_set`. */
  function TableSet<V>(t: Table<V>, hash: HashFn, key: string, value: V): (r: Table<V>)
    requires |t.slots| > 0
    ensures |r.slots| == |t.slots| || |r.slots| == 2 * |t.slots|
    ensures r.size == t.size || r.size == t.size + 1
  {
    Insert(Grow(t, hash), hash, key, value)
  }

  /** The probe loop of `get` from probe number `i` on: empty slots are skipped,
      and the value of the first bucket holding `key` is returned. */
  function Lookup<V(==)>(s: Slots<V>, h: nat, key: string, i: nat): (r: Option<V>)
    requires |s| > 0
    decreases |s| - i
    ensures r.None? <==> forall j :: i <= j < |s| ==> !HoldsKey(s[Probe(h, j, |s|)], key)
    ensures r.Some? ==> exists j :: i <= j < |s| && s[Probe(h, j, |s|)] == Some(Bucket(key, r.value))
                                   && forall k :: i <= k < j ==> !HoldsKey(s[Probe(h, k, |s|)], key)
  {
    if i >= |s| then None
    else
      var o := s[Probe(h, i, |s|)];
      if o.Some? && o.value.key == key then Some(o.value.value)
      else Lookup(s, h, key, i + 1)
  }

  /** `hashmap_##name##_get`; None where the C code dereferences NULL. */
  function TableGet<V(==)>(t: Table<V>, hash: HashFn, key: string): (r: Option<V>)
    requires |t.slots| > 0
    ensures r.Some? ==> exists p :: 0 <= p < |t.slots| && t.slots[p] == Some(Bucket(key, r.value))
  {
    Lookup(t.slots, hash(key), key, 0)
  }
}
