/** A NUL-terminated C string as a sequence of characters: the characters of the
    sequence, then the terminator, read at index `|s|`. */
module CStrings {
  import opened Options

  const Nul: char := '\0'

  /** A C string cannot contain its terminator. */
  predicate NoNul(s: seq<char>)
  {
    forall i :: 0 <= i < |s| ==> s[i] != Nul
  }

  /** `s[i]` in C: the terminator at `|s|` (and, for total functions, past it). */
  function CharAt(s: seq<char>, i: nat): (c: char)
    ensures (c == Nul) == (i >= |s| || s[i] == Nul)
  {
    if i < |s| then s[i] else Nul
  }

  /** `strchr(accept, c) != NULL`: true for the characters of `accept` and for the
      terminator, which `strchr` also finds. */
  predicate InCString(accept: seq<char>, c: char)
  {
    c == Nul || c in accept
  }

  /** `strspn(s + i, chars)`: the length of the run of characters of `chars`
      starting at `i`. */
  function Span(s: seq<char>, i: nat, chars: seq<char>): (n: nat)
    requires i <= |s|
    decreases |s| - i
    ensures i + n <= |s|
    ensures forall k :: i <= k < i + n ==> s[k] in chars
    ensures i + n == |s| || s[i + n] !in chars
  {
    if i < |s| && s[i] in chars then 1 + Span(s, i + 1, chars) else 0
  }

  /** `strchr(s + i, c)` for a character `c` other than the terminator: the index
      of the first `c` at or after `i`, or None (NULL) when the terminator, or the
      end of the sequence, comes first. */
  function Strchr(s: seq<char>, i: nat, c: char): (r: Option<nat>)
    requires c != Nul
    decreases |s| - i
    ensures r.Some? ==> i <= r.value < |s| && s[r.value] == c
    ensures r.Some? ==> forall k :: i <= k < r.value ==> s[k] != c && s[k] != Nul
    ensures r.None? ==> forall k :: i <= k < |s| ==> s[k] != c || exists m :: i <= m < k && s[m] == Nul
  {
    if i >= |s| || s[i] == Nul then None
    else if s[i] == c then Some(i)
    else Strchr(s, i + 1, c)
  }
}
