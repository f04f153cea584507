/** Order-preserving selection over sequences: the `Array.prototype.filter`
    that every list operation of the editor is built from. */
module Seqs {

  /** The elements of `s` that satisfy `p`, in their original order. */
  function Keep<T(!new)>(s: seq<T>, p: T -> bool): (r: seq<T>)
    ensures |r| <= |s|
    ensures forall x :: x in r <==> x in s && p(x)
  {
    if s == [] then [] else (if p(s[0]) then [s[0]] else []) + Keep(s[1..], p)
  }

  /** `a` can be obtained from `b` by deleting elements (order is kept, nothing is added). */
  predicate IsSubsequence<T(==)>(a: seq<T>, b: seq<T>)
    decreases |b|
  {
    a == [] ||
    (b != [] && ((a[0] == b[0] && IsSubsequence(a[1..], b[1..])) || IsSubsequence(a, b[1..])))
  }

  /** The number of elements of `s` that satisfy `p`. */
  function Count<T(!new)>(s: seq<T>, p: T -> bool): (n: nat)
    ensures n <= |s|
  {
    |Keep(s, p)|
  }

  lemma {:induction false} KeepIsSubsequence<T(!new)>(s: seq<T>, p: T -> bool)
    ensures IsSubsequence(Keep(s, p), s)
  {
    if s != [] {
      KeepIsSubsequence(s[1..], p);
      if p(s[0]) {
        assert Keep(s, p) == [s[0]] + Keep(s[1..], p);
        assert Keep(s, p)[1..] == Keep(s[1..], p);
      } else {
        assert Keep(s, p) == Keep(s[1..], p);
      }
    }
  }

  /** Selecting with `p` and then with `q` is selecting once with their conjunction. */
  lemma {:induction false} KeepKeep<T(!new)>(s: seq<T>, p: T -> bool, q: T -> bool, pq: T -> bool)
    requires forall x :: pq(x) == (p(x) && q(x))
    ensures Keep(Keep(s, p), q) == Keep(s, pq)
  {
    if s != [] {
      KeepKeep(s[1..], p, q, pq);
      if p(s[0]) {
        assert Keep(s, p) == [s[0]] + Keep(s[1..], p);
        assert Keep(s, p)[1..] == Keep(s[1..], p);
      } else {
        assert Keep(s, p) == Keep(s[1..], p);
      }
    }
  }

  /** A predicate that holds of every element keeps the whole sequence. */
  lemma {:induction false} KeepAll<T(!new)>(s: seq<T>, p: T -> bool)
    requires forall x :: x in s ==> p(x)
    ensures Keep(s, p) == s
  {
    if s != [] {
      assert forall x :: x in s[1..] ==> x in s;
      KeepAll(s[1..], p);
    }
  }

  /** A predicate that holds of no element keeps nothing. */
  lemma {:induction false} KeepNone<T(!new)>(s: seq<T>, p: T -> bool)
    requires forall x :: x in s ==> !p(x)
    ensures Keep(s, p) == []
  {
    if s != [] {
      assert forall x :: x in s[1..] ==> x in s;
      KeepNone(s[1..], p);
    }
  }

  /** When exactly the first `n` elements satisfy `p`, selection keeps that prefix. */
  lemma {:induction false} KeepPrefix<T(!new)>(s: seq<T>, n: nat, p: T -> bool)
    requires n <= |s|
    requires forall i :: 0 <= i < n ==> p(s[i])
    requires forall i :: n <= i < |s| ==> !p(s[i])
    ensures Keep(s, p) == s[..n]
  {
    if s != [] {
      KeepPrefix(s[1..], if n == 0 then 0 else n - 1, p);
      if n > 0 {
        assert s[..n] == [s[0]] + s[1..][..n - 1];
      }
    }
  }

  /** When exactly the elements from position `n` on satisfy `p`, selection keeps that suffix. */
  lemma {:induction false} KeepSuffix<T(!new)>(s: seq<T>, n: nat, p: T -> bool)
    requires n <= |s|
    requires forall i :: 0 <= i < n ==> !p(s[i])
    requires forall i :: n <= i < |s| ==> p(s[i])
    ensures Keep(s, p) == s[n..]
  {
    if s != [] {
      if n > 0 {
        KeepSuffix(s[1..], n - 1, p);
        assert s[1..][n - 1..] == s[n..];
      } else {
        KeepPrefix(s[1..], |s| - 1, p);
      }
    }
  }

  /** Selection keeps every selected element as often as it occurs, and no other. */
  lemma {:induction false} KeepMultiset<T(!new)>(s: seq<T>, p: T -> bool)
    ensures forall x :: multiset(Keep(s, p))[x] == if p(x) then multiset(s)[x] else 0
  {
    if s != [] {
      KeepMultiset(s[1..], p);
      assert s == [s[0]] + s[1..];
      assert multiset(s) == multiset([s[0]]) + multiset(s[1..]);
    }
  }

  /** Two equally long sequences that agree at every selected position, and
      select the same positions, select the same elements. */
  lemma {:induction false} KeepPointwise<T(!new)>(a: seq<T>, b: seq<T>, p: T -> bool)
    requires |a| == |b|
    requires forall i :: 0 <= i < |a| ==> p(a[i]) == p(b[i]) && (p(a[i]) ==> a[i] == b[i])
    ensures Keep(a, p) == Keep(b, p)
  {
    if a != [] {
      KeepPointwise(a[1..], b[1..], p);
    }
  }

  /** Selecting twice with the same predicate is selecting once. */
  lemma KeepIdempotent<T(!new)>(s: seq<T>, p: T -> bool)
    ensures Keep(Keep(s, p), p) == Keep(s, p)
  {
    KeepAll(Keep(s, p), p);
  }

  /** Selection distributes over concatenation. */
  lemma {:induction false} KeepAppend<T(!new)>(a: seq<T>, b: seq<T>, p: T -> bool)
    ensures Keep(a + b, p) == Keep(a, p) + Keep(b, p)
  {
    if a == [] {
      assert a + b == b;
    } else {
      assert (a + b)[1..] == a[1..] + b;
      KeepAppend(a[1..], b, p);
    }
  }

  /** Every element satisfies exactly one of `p` and its negation `np`. */
  lemma {:induction false} CountComplement<T(!new)>(s: seq<T>, p: T -> bool, np: T -> bool)
    requires forall x :: np(x) == !p(x)
    ensures Count(s, p) + Count(s, np) == |s|
  {
    if s != [] {
      CountComplement(s[1..], p, np);
    }
  }

  lemma {:induction false} SubsequenceReflexive<T>(s: seq<T>)
    ensures IsSubsequence(s, s)
  {
    if s != [] {
      SubsequenceReflexive(s[1..]);
    }
  }
}
