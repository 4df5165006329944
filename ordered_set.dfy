/**
 * A JavaScript `Set` iterates in insertion order and holds each element once.
 * It is modelled as a sequence without repeats; `Insert` is `Set.add`,
 * `Without` is `Set.delete`.
 */
module OrderedSet {

  predicate NoDup<T(==)>(s: seq<T>) {
    forall i, j :: 0 <= i < j < |s| ==> s[i] != s[j]
  }

  /** `Set.add`: appends `x` unless it is already there. */
  function Insert<T(==,!new)>(s: seq<T>, x: T): (r: seq<T>)
    ensures forall y :: y in r <==> y in s || y == x
    ensures NoDup(s) ==> NoDup(r)
    ensures |s| <= |r| <= |s| + 1 && r[..|s|] == s
  {
    if x in s then s else s + [x]
  }

  /** `Set.delete`: drops every occurrence of `x`. */
  function Without<T(==,!new)>(s: seq<T>, x: T): (r: seq<T>)
    ensures forall y :: y in r <==> y in s && y != x
    ensures NoDup(s) ==> NoDup(r)
    ensures x !in s ==> r == s
  {
    if s == [] then []
    else if s[0] == x then Without(s[1..], x)
    else
      var rest := Without(s[1..], x);
      assert NoDup(s) ==> s[0] !in s[1..];
      [s[0]] + rest
  }

  /** A non-empty sequence holds exactly what its front holds and its last element. */
  lemma InFront<T>(s: seq<T>)
    requires s != []
    ensures forall y :: y in s <==> y in s[..|s| - 1] || y == s[|s| - 1]
  {
    assert s == s[..|s| - 1] + [s[|s| - 1]];
  }

  /** A prefix holds only elements of the whole. */
  lemma InPrefix<T>(s: seq<T>, n: nat)
    requires n <= |s|
    ensures forall y :: y in s[..n] ==> y in s
  {
    assert s == s[..n] + s[n..];
  }

  /** The front of a sequence without repeats has none either, and does not hold the last element. */
  lemma NoDupFront<T>(s: seq<T>)
    requires NoDup(s) && s != []
    ensures NoDup(s[..|s| - 1]) && s[|s| - 1] !in s[..|s| - 1]
  {
  }

  /** The elements of `s` not in `drop`, in their order in `s`. */
  function Except<T(==,!new)>(s: seq<T>, drop: seq<T>): (r: seq<T>)
    ensures forall y :: y in r <==> y in s && y !in drop
  {
    if s == [] then []
    else if s[0] in drop then Except(s[1..], drop)
    else [s[0]] + Except(s[1..], drop)
  }

  /** Deleting `x` from what survives `drop` is what survives `drop + [x]`. */
  lemma {:induction false} ExceptSnoc<T(!new)>(s: seq<T>, drop: seq<T>, x: T)
    ensures Without(Except(s, drop), x) == Except(s, drop + [x])
  {
    if s != [] {
      ExceptSnoc(s[1..], drop, x);
      assert s[0] in drop + [x] <==> s[0] in drop || s[0] == x;
      if s[0] !in drop {
        var rest := Except(s[1..], drop);
        assert ([s[0]] + rest)[0] == s[0] && ([s[0]] + rest)[1..] == rest;
      }
    }
  }

  /** Everything survives when nothing is dropped. */
  lemma {:induction false} ExceptNothing<T(!new)>(s: seq<T>)
    ensures Except(s, []) == s
  {
    if s != [] {
      ExceptNothing(s[1..]);
    }
  }

  /** Nothing survives when every element is dropped. */
  lemma {:induction false} ExceptAll<T(!new)>(s: seq<T>, drop: seq<T>)
    requires forall y :: y in s ==> y in drop
    ensures Except(s, drop) == []
  {
    if s != [] {
      assert s[0] in s;
      assert forall y :: y in s[1..] ==> y in s;
      ExceptAll(s[1..], drop);
    }
  }

  /** Regrouping a concatenation; stated once so that provers need not rediscover it element by element. */
  lemma ConcatAssoc<T>(a: seq<T>, b: seq<T>, c: seq<T>)
    ensures (a + b) + c == a + (b + c)
  {
  }
}
