/** The growable vector of vector.h (DEFINE_VECTOR): a length, a capacity and a
    heap buffer of items.  The parser uses two instances, the pending-key stack
    and the context stack. */
module Vectors {
  import opened Options

  /** Initial capacity of every vector (vector.h, `v->cap = 32`). */
  const InitialCapacity: nat := 32

  /** `(size_t)-1`, the index the parser passes to `at` to mean "last". */
  const SizeMax: nat := 0xFFFF_FFFF_FFFF_FFFF

  /** Capacities a vector can have: 32 doubled any number of times. */
  ghost predicate IsVectorCapacity(c: nat)
  {
    c == InitialCapacity || (c > InitialCapacity && c % 2 == 0 && IsVectorCapacity(c / 2))
  }

  class Vector<T(0)> {
    var len: nat
    var cap: nat
    var items: array<T>

    /** The object invariant: the buffer is `cap` long and holds the `len` items;
        `len` is a `size_t`. */
    ghost predicate Valid()
      reads this
    {
      items.Length == cap && len <= cap && len <= SizeMax && IsVectorCapacity(cap)
    }

    /** The abstract value: the items in order, oldest first. */
    ghost function Elements(): seq<T>
      reads this, items
      requires Valid()
    {
      items[..len]
    }

    /** `vector_##name##_new`: an empty vector of capacity 32. */
    constructor ()
      ensures Valid() && fresh(items)
      ensures len == 0 && cap == InitialCapacity && Elements() == []
    {
      len := 0;
      cap := InitialCapacity;
      items := new T[InitialCapacity];
    }

    /** `vector_##name##_push`: doubles the capacity when the buffer is full, then
        writes the value at index `len`; earlier items are unchanged. */
    method Push(x: T)
      requires Valid() && len < SizeMax
      modifies this, items
      ensures Valid()
      ensures Elements() == old(Elements()) + [x]
      ensures cap == if old(len) >= old(cap) then 2 * old(cap) else old(cap)
      ensures items == old(items) || fresh(items)
    {
      if len >= cap {
        cap := cap * 2;
        var grown := new T[cap];
        forall i | 0 <= i < len {
          grown[i] := items[i];
        }
        items := grown;
      }
      items[len] := x;
      len := len + 1;
    }

    /** `vector_##name##_pop`: None (the NULL pointer) on an empty vector, which is
        left unchanged; otherwise the former last item, which is removed. */
    method Pop() returns (r: Option<T>)
      requires Valid()
      modifies this`len
      ensures Valid()
      ensures old(len) == 0 ==> r == None && len == 0
      ensures old(len) > 0 ==> r == Some(old(Elements())[old(len) - 1])
                               && Elements() == old(Elements())[..old(len) - 1]
    {
      if len == 0 {
        return None;
      }
      len := len - 1;
      r := Some(items[len]);
    }

    /** `vector_##name##_at` on a non-empty vector: the item at `index` when it is
        below `len`, and the last item for every larger index, which is how the
        parser's `(size_t)-1` reaches the top of a stack.  The C code's negative-index
        branch is unreachable, since an unsigned index is never below zero. */
    method At(index: nat) returns (x: T)
      requires Valid() && len > 0
      ensures index < len ==> x == Elements()[index]
      ensures index >= len ==> x == Elements()[|Elements()| - 1]
    {
      if index > len - 1 {
        return items[len - 1];
      }
      x := items[index];
    }

    /** Replaces the last item.  The C parser never writes the context stack here:
        it mutates the container that the top context points to; with containers
        held as values, that mutation is this write of the top item. */
    method UpdateLast(x: T)
      requires Valid() && len > 0
      modifies items
      ensures Valid()
      ensures Elements() == old(Elements())[..len - 1] + [x]
    {
      items[len - 1] := x;
    }
  }
}
