/** The map of hashmap.h (DEFINE_HASHMAP) as a class: `cap`, `size` and the slot
    array `values` are updated in place, and every method is proved against the
    functions of HashTable, whose properties HashTableFacts proves. */
module HashMaps {
  import opened Options
  import opened HashTable
  import opened HashTableFacts

  class HashMap<V(==)> {
    const hash: HashFn
    var cap: nat
    var size: nat
    var values: array<Option<Bucket<V>>>

    /** The abstract value of the fields. */
    ghost function Model(): Table<V>
      reads this, values
    {
      Table(size, values[..])
    }

    ghost predicate Valid()
      reads this, values
    {
      values.Length == cap && TableValid(Model(), hash)
    }

    /** `hashmap_##name##_new`: capacity 64, size 0, every slot empty. */
    constructor (hash: HashFn)
      ensures Valid() && fresh(values)
      ensures this.hash == hash && cap == InitialCapacity && Model() == NewTable()
    {
      this.hash := hash;
      cap := InitialCapacity;
      size := 0;
      values := new Option<Bucket<V>>[InitialCapacity](_ => None);
      new;
      assert values[..] == EmptySlots(InitialCapacity);
      NewTableValid<V>(hash);
    }

    /** `hashmap_##name##_set`: resize by doubling and rehashing when
        `size >= cap * 0.75`, then put a new bucket in the first empty slot of
        the key's probe sequence. */
    method Set(key: string, value: V)
      requires Valid()
      modifies this, values
      ensures Valid()
      ensures Model() == TableSet(old(Model()), hash, key, value)
      ensures values == old(values) || fresh(values)
    {
      ghost var t0 := Model();
      SetPreservesValid(t0, hash, key, value);
      if 4 * size >= 3 * cap {
        var newCap := cap * 2;
        var newValues := Rehashed(values, newCap);
        values := newValues;
        cap := newCap;
      }
      assert Model() == Grow(t0, hash);
      ghost var g := Model();
      assert TableSet(t0, hash, key, value) == Insert(g, hash, key, value);
      var bucket := Bucket(key, value);
      var i := 0;
      while i < cap
        invariant 0 <= i <= cap
        invariant Model() == g
        invariant forall k :: 0 <= k < i ==> g.slots[Probe(hash(key), k, cap)].Some?
      {
        var newIndex := Probe(hash(key), i, cap);
        if values[newIndex] == None {
          values[newIndex] := Some(bucket);
          size := size + 1;
          FirstEmptyAt(g.slots, hash(key), i);
          return;
        }
        i := i + 1;
      }
      FirstEmptyNone(g.slots, hash(key));
    }

    /** The rehash loop of `set` (hashmap.h, inline there): every occupied bucket
        of `from`, in slot order, moves to the first empty slot of its probe
        sequence in a fresh array of `newCap` slots, or is dropped when that
        sequence has none. */
    method Rehashed(from: array<Option<Bucket<V>>>, newCap: nat) returns (newValues: array<Option<Bucket<V>>>)
      requires newCap > 0
      ensures fresh(newValues)
      ensures newValues[..] == RehashPrefix(from[..], hash, newCap, from.Length)
    {
      newValues := new Option<Bucket<V>>[newCap](_ => None);
      assert newValues[..] == EmptySlots(newCap);
      var i := 0;
      while i < from.Length
        modifies newValues
        invariant 0 <= i <= from.Length
        invariant newValues[..] == RehashPrefix(from[..], hash, newCap, i)
      {
        var b := from[i];
        if b.Some? {
          ghost var h := hash(b.value.key);
          ghost var before := newValues[..];
          var j := 0;
          while j < newCap
            modifies newValues
            invariant 0 <= j <= newCap
            invariant newValues[..] == before
            invariant forall k :: 0 <= k < j ==> before[Probe(h, k, newCap)].Some?
          {
            var newIndex := Probe(hash(b.value.key), j, newCap);
            if newValues[newIndex] == None {
              newValues[newIndex] := b;
              FirstEmptyAt(before, h, j);
              break;
            }
            j := j + 1;
          }
          if j == newCap {
            FirstEmptyNone(before, h);
          }
        }
        i := i + 1;
      }
    }

    /** `hashmap_##name##_get`: walks probe numbers 0 .. cap - 1, skipping empty
        slots, and returns the value of the first bucket whose key equals `key`;
        None where the C code dereferences NULL.  The map is not modified. */
    method Get(key: string) returns (r: Option<V>)
      requires Valid()
      ensures r == TableGet(Model(), hash, key)
    {
      r := Search(key);
    }

    /** The probe loop of `get`; it needs only the slot array and its capacity. */
    method Search(key: string) returns (r: Option<V>)
      requires values.Length == cap && cap > 0
      ensures r == Lookup(values[..], hash(key), key, 0)
    {
      ghost var slots := values[..];
      var h := hash(key);
      var i := 0;
      while i < cap
        invariant 0 <= i <= cap
        invariant Lookup(slots, h, key, i) == Lookup(slots, h, key, 0)
      {
        var newIndex := Probe(h, i, cap);
        var b := values[newIndex];
        assert b == slots[Probe(h, i, |slots|)];
        if b == None {
          assert Lookup(slots, h, key, i) == Lookup(slots, h, key, i + 1);
          i := i + 1;
          continue;
        }
        if b.value.key == key {
          assert Lookup(slots, h, key, i) == Some(b.value.value);
          return Some(b.value.value);
        }
        assert Lookup(slots, h, key, i) == Lookup(slots, h, key, i + 1);
        i := i + 1;
      }
      assert Lookup(slots, h, key, i) == None;
      return None;
    }
  }
}
