/** Sequence helpers behind the editor's traversals: first-seen deduplication and removal. */
module Seqs {

  predicate Distinct<T(==)>(s: seq<T>)
  {
    forall i, j :: 0 <= i < j < |s| ==> s[i] != s[j]
  }

  /** Index of the first occurrence of `x` in `s`. */
  function IndexOf<T(==)>(s: seq<T>, x: T): (k: nat)
    requires x in s
    ensures k < |s| && s[k] == x
    ensures forall i :: 0 <= i < k ==> s[i] != x
  {
    if s[0] == x then 0 else 1 + IndexOf(s[1..], x)
  }

  /** The elements of `s` in the order they are first seen, each once: the effect of
      pushing an element only if the list built so far does not already hold it. */
  function Dedup<T(==)>(s: seq<T>): (d: seq<T>)
    decreases |s|
  {
    if s == [] then []
    else
      var d := Dedup(s[..|s| - 1]);
      if s[|s| - 1] in d then d else d + [s[|s| - 1]]
  }

  /** Cutting `s + [x]` at `m`: the front is `s`'s front, the back `s`'s back and then `x`. */
  lemma SnocSplit<T>(s: seq<T>, x: T, m: nat)
    requires m <= |s|
    ensures (s + [x])[..m] == s[..m] && (s + [x])[m..] == s[m..] + [x]
  {
  }

  /** One step of the deduplicating loop. */
  lemma DedupSnoc<T>(s: seq<T>, x: T)
    ensures Dedup(s + [x]) == if x in Dedup(s) then Dedup(s) else Dedup(s) + [x]
  {
    assert (s + [x])[..|s + [x]| - 1] == s;
  }

  /** Deduplication keeps exactly the elements of `s`. */
  lemma {:induction false} DedupMembers<T>(s: seq<T>)
    ensures forall x :: x in Dedup(s) <==> x in s
    ensures forall k :: 0 <= k < |Dedup(s)| ==> Dedup(s)[k] in s
    decreases |s|
  {
    if s != [] {
      var p := s[..|s| - 1];
      DedupMembers(p);
      assert s == p + [s[|s| - 1]];
    }
  }

  /** Deduplication keeps each element once. */
  lemma {:induction false} DedupDistinct<T>(s: seq<T>)
    ensures Distinct(Dedup(s))
    decreases |s|
  {
    if s != [] {
      DedupDistinct(s[..|s| - 1]);
    }
  }

  lemma {:induction false} IndexOfPrefix<T>(s: seq<T>, t: seq<T>, x: T)
    requires x in s
    ensures x in s + t && IndexOf(s + t, x) == IndexOf(s, x)
    decreases |s|
  {
    if s[0] != x {
      assert (s + t)[1..] == s[1..] + t;
      IndexOfPrefix(s[1..], t, x);
    }
  }

  lemma {:induction false} IndexOfLast<T>(s: seq<T>, x: T)
    requires x !in s
    ensures x in s + [x] && IndexOf(s + [x], x) == |s|
    decreases |s|
  {
    if s != [] {
      assert (s + [x])[1..] == s[1..] + [x];
      IndexOfLast(s[1..], x);
    }
  }

  /** Deduplication keeps first-seen order: earlier entries were first seen earlier in `s`. */
  lemma {:induction false} DedupFirstSeen<T>(s: seq<T>)
    ensures forall i, j :: 0 <= i < j < |Dedup(s)| ==>
      Dedup(s)[i] in s && Dedup(s)[j] in s && IndexOf(s, Dedup(s)[i]) < IndexOf(s, Dedup(s)[j])
    decreases |s|
  {
    if s != [] {
      var p, x := s[..|s| - 1], s[|s| - 1];
      assert s == p + [x];
      DedupFirstSeen(p);
      DedupMembers(p);
      DedupSnoc(p, x);
      var d := Dedup(p);
      assert Dedup(s) == if x in d then d else d + [x];
      forall i, j | 0 <= i < j < |Dedup(s)|
        ensures Dedup(s)[i] in s && Dedup(s)[j] in s && IndexOf(s, Dedup(s)[i]) < IndexOf(s, Dedup(s)[j])
      {
        assert Dedup(s)[i] == d[i] && d[i] in d;
        DedupMembers(p);
        assert d[i] in p;
        IndexOfPrefix(p, [x], d[i]);
        if j < |d| {
          IndexOfPrefix(p, [x], d[j]);
        } else {
          assert x !in p && Dedup(s)[j] == x;
          IndexOfLast(p, x);
        }
      }
    } else {
      assert Dedup(s) == [];
    }
  }

  /** `s` with every occurrence of `x` taken out. */
  function Without<T(==,!new)>(s: seq<T>, x: T): (r: seq<T>)
    ensures forall y :: y in r <==> y in s && y != x
    ensures |r| <= |s|
  {
    if s == [] then [] else (if s[0] == x then [] else [s[0]]) + Without(s[1..], x)
  }

  /** `s` with every element of `xs` taken out, order kept. */
  function WithoutAll<T(==,!new)>(s: seq<T>, xs: seq<T>): (r: seq<T>)
    ensures forall y :: y in r <==> y in s && y !in xs
  {
    if s == [] then [] else (if s[0] in xs then [] else [s[0]]) + WithoutAll(s[1..], xs)
  }

  /** Taking out an absent element changes nothing. */
  lemma {:induction false} WithoutAbsent<T(!new)>(s: seq<T>, x: T)
    requires x !in s
    ensures Without(s, x) == s
  {
    if s != [] {
      assert x !in s[1..];
      WithoutAbsent(s[1..], x);
    }
  }

  /** Removing elements one after another is removing them all at once. */
  lemma {:induction false} WithoutStep<T(!new)>(s: seq<T>, xs: seq<T>, x: T)
    ensures Without(WithoutAll(s, xs), x) == WithoutAll(s, xs + [x])
  {
    if s != [] {
      WithoutStep(s[1..], xs, x);
      var head := if s[0] in xs then [] else [s[0]];
      assert WithoutAll(s, xs) == head + WithoutAll(s[1..], xs);
      WithoutConcat(head, WithoutAll(s[1..], xs), x);
    }
  }

  lemma {:induction false} WithoutConcat<T(!new)>(a: seq<T>, b: seq<T>, x: T)
    ensures Without(a + b, x) == Without(a, x) + Without(b, x)
  {
    if a != [] {
      assert (a + b)[0] == a[0] && (a + b)[1..] == a[1..] + b;
      WithoutConcat(a[1..], b, x);
      var head := if a[0] == x then [] else [a[0]];
      assert Without(a + b, x) == head + Without(a[1..] + b, x);
      assert Without(a, x) == head + Without(a[1..], x);
      assert Without(a + b, x) == head + (Without(a[1..], x) + Without(b, x));
      assert head + (Without(a[1..], x) + Without(b, x)) == (head + Without(a[1..], x)) + Without(b, x);
    } else {
      assert a + b == b;
    }
  }

  lemma {:induction false} WithoutAllEmpty<T(!new)>(s: seq<T>)
    ensures WithoutAll(s, []) == s
  {
    if s != [] {
      WithoutAllEmpty(s[1..]);
    }
  }
}
