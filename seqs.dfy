/** Sequence helpers shared by the table model: order-preserving filter,
    reversal ("newest first"), element-wise map and first-occurrence dedup. */
module Seqs {
  import opened Wrappers

  function Filter<T>(s: seq<T>, p: T -> bool): (r: seq<T>)
    ensures |r| <= |s|
    ensures forall i :: 0 <= i < |r| ==> p(r[i])
  {
    if s == [] then [] else (if p(s[0]) then [s[0]] else []) + Filter(s[1..], p)
  }

  /** An element is kept exactly when it occurs and satisfies the predicate. */
  lemma {:induction false} FilterMember<T>(s: seq<T>, p: T -> bool, x: T)
    ensures x in Filter(s, p) <==> x in s && p(x)
  {
    if s != [] {
      FilterMember(s[1..], p, x);
      assert s == [s[0]] + s[1..];
    }
  }

  lemma {:induction false} FilterMultiset<T>(s: seq<T>, p: T -> bool, x: T)
    ensures multiset(Filter(s, p))[x] == if p(x) then multiset(s)[x] else 0
  {
    if s != [] {
      FilterMultiset(s[1..], p, x);
      assert s == [s[0]] + s[1..];
    }
  }

  lemma FilterAll<T>(s: seq<T>, p: T -> bool)
    requires forall i :: 0 <= i < |s| ==> p(s[i])
    ensures Filter(s, p) == s
  {
    if s != [] { FilterAll(s[1..], p); }
  }

  lemma FilterNone<T>(s: seq<T>, p: T -> bool)
    requires forall i :: 0 <= i < |s| ==> !p(s[i])
    ensures Filter(s, p) == []
  {
    if s != [] { FilterNone(s[1..], p); }
  }

  lemma FilterAppend<T>(s: seq<T>, t: seq<T>, p: T -> bool)
    ensures Filter(s + t, p) == Filter(s, p) + Filter(t, p)
  {
    if s == [] {
      assert s + t == t;
    } else {
      assert (s + t)[1..] == s[1..] + t;
      FilterAppend(s[1..], t, p);
    }
  }

  /** Two filters with disjoint predicates together keep what their union keeps. */
  lemma FilterSplit<T>(s: seq<T>, p: T -> bool, q: T -> bool, pq: T -> bool)
    requires forall x :: !(p(x) && q(x))
    requires forall x :: pq(x) == (p(x) || q(x))
    ensures multiset(Filter(s, p)) + multiset(Filter(s, q)) == multiset(Filter(s, pq))
  {
    forall x ensures (multiset(Filter(s, p)) + multiset(Filter(s, q)))[x] == multiset(Filter(s, pq))[x] {
      FilterMultiset(s, p, x);
      FilterMultiset(s, q, x);
      FilterMultiset(s, pq, x);
    }
  }

  function Reverse<T>(s: seq<T>): (r: seq<T>)
    ensures |r| == |s| && forall i :: 0 <= i < |s| ==> r[i] == s[|s| - 1 - i]
  {
    if s == [] then [] else Reverse(s[1..]) + [s[0]]
  }

  lemma ReverseMultiset<T>(s: seq<T>)
    ensures multiset(Reverse(s)) == multiset(s)
  {
    if s != [] {
      ReverseMultiset(s[1..]);
      assert s == [s[0]] + s[1..];
    }
  }

  lemma ReverseMember<T>(s: seq<T>, x: T)
    ensures x in Reverse(s) <==> x in s
  {
    var r := Reverse(s);
    if x in s {
      var k :| 0 <= k < |s| && s[k] == x;
      assert r[|s| - 1 - k] == x;
    }
  }

  lemma ReverseInvolution<T>(s: seq<T>)
    ensures Reverse(Reverse(s)) == s
  {
    assert forall i :: 0 <= i < |s| ==> Reverse(Reverse(s))[i] == s[i];
  }

  /** `n` copies of `x`. */
  function Repeat<T>(x: T, n: nat): (r: seq<T>)
    ensures |r| == n && forall i :: 0 <= i < n ==> r[i] == x
  {
    if n == 0 then [] else Repeat(x, n - 1) + [x]
  }

  function Map<T, U>(s: seq<T>, f: T -> U): (r: seq<U>)
    ensures |r| == |s| && forall i :: 0 <= i < |s| ==> r[i] == f(s[i])
  {
    seq(|s|, i requires 0 <= i < |s| => f(s[i]))
  }

  lemma MapAppend<T, U>(s: seq<T>, t: seq<T>, f: T -> U)
    ensures Map(s + t, f) == Map(s, f) + Map(t, f)
  {
  }

  lemma MapReverse<T, U>(s: seq<T>, f: T -> U)
    ensures Map(Reverse(s), f) == Reverse(Map(s, f))
  {
  }

  /** The index of the first element satisfying `p`, if any. */
  function FirstIndex<T>(s: seq<T>, p: T -> bool): (r: Option<nat>)
    ensures r.Some? ==> r.value < |s| && p(s[r.value]) && forall j :: 0 <= j < r.value ==> !p(s[j])
    ensures r.None? ==> forall j :: 0 <= j < |s| ==> !p(s[j])
  {
    if s == [] then None
    else if p(s[0]) then Some(0)
    else match FirstIndex(s[1..], p)
      case None => None
      case Some(k) => Some(k + 1)
  }

  predicate NoDuplicates<T(==)>(s: seq<T>) {
    forall i, j :: 0 <= i < j < |s| ==> s[i] != s[j]
  }

  /** The elements of `s` in order of first occurrence: what inserting them one
      by one into a table with a unique column keeps. */
  function Dedup<T(==)>(s: seq<T>): (r: seq<T>)
    ensures NoDuplicates(r)
    ensures forall i :: 0 <= i < |r| ==> r[i] in s
    ensures forall i :: 0 <= i < |s| ==> s[i] in r
  {
    DedupAfter([], s)
  }

  /** What `seen` becomes after inserting each element of `s` that it lacks. */
  function DedupAfter<T(==)>(seen: seq<T>, s: seq<T>): (r: seq<T>)
    requires NoDuplicates(seen)
    ensures NoDuplicates(r) && |seen| <= |r| && r[..|seen|] == seen
    ensures forall i :: 0 <= i < |r| ==> r[i] in seen || r[i] in s
    ensures forall i :: 0 <= i < |s| ==> s[i] in r
    decreases |s|
  {
    if s == [] then seen
    else if s[0] in seen then DedupAfter(seen, s[1..])
    else
      var seen' := seen + [s[0]];
      var r := DedupAfter(seen', s[1..]);
      assert r[..|seen|] == r[..|seen'|][..|seen|];
      assert r[|seen|] == r[..|seen'|][|seen|] == s[0];
      r
  }

  lemma DedupAfterSnoc<T>(seen: seq<T>, s: seq<T>, x: T)
    requires NoDuplicates(seen)
    ensures DedupAfter(seen, s + [x]) ==
      var d := DedupAfter(seen, s); if x in d then d else d + [x]
    decreases |s|
  {
    if s == [] {
      assert DedupAfter(seen, [x]) == if x in seen then DedupAfter(seen, []) else DedupAfter(seen + [x], []);
    } else {
      assert (s + [x])[1..] == s[1..] + [x];
      if s[0] in seen {
        DedupAfterSnoc(seen, s[1..], x);
      } else {
        DedupAfterSnoc(seen + [s[0]], s[1..], x);
      }
    }
  }

  lemma DedupOfDistinct<T>(s: seq<T>)
    requires NoDuplicates(s)
    ensures Dedup(s) == s
  {
    DedupOfDistinctAfter([], s);
  }

  lemma DedupOfDistinctAfter<T>(seen: seq<T>, s: seq<T>)
    requires NoDuplicates(seen) && NoDuplicates(seen + s)
    ensures DedupAfter(seen, s) == seen + s
    decreases |s|
  {
    if s != [] {
      assert s[0] == (seen + s)[|seen|];
      assert s[0] !in seen by {
        forall i | 0 <= i < |seen| ensures seen[i] != s[0] { assert seen[i] == (seen + s)[i]; }
      }
      assert seen + s == (seen + [s[0]]) + s[1..];
      DedupOfDistinctAfter(seen + [s[0]], s[1..]);
    } else {
      assert seen + s == seen;
    }
  }

  /** `s` without its element at `i`, the others in order. */
  function RemoveAt<T>(s: seq<T>, i: nat): (r: seq<T>)
    requires i < |s|
    ensures |r| == |s| - 1
    ensures forall k :: 0 <= k < i ==> r[k] == s[k]
    ensures forall k :: i <= k < |r| ==> r[k] == s[k + 1]
  {
    s[..i] + s[i + 1..]
  }

  /** Filtering keeps a sequence free of duplicates. */
  lemma {:induction false} FilterNoDuplicates<T>(s: seq<T>, p: T -> bool)
    requires NoDuplicates(s)
    ensures NoDuplicates(Filter(s, p))
  {
    if s != [] {
      var t := s[1..];
      assert NoDuplicates(t) by {
        forall i, j | 0 <= i < j < |t| ensures t[i] != t[j] { assert t[i] == s[i + 1] && t[j] == s[j + 1]; }
      }
      FilterNoDuplicates(t, p);
      FilterMember(t, p, s[0]);
      assert s[0] !in t by {
        forall k | 0 <= k < |t| ensures t[k] != s[0] { assert t[k] == s[k + 1]; }
      }
      var r := Filter(t, p);
      if p(s[0]) {
        var c := [s[0]] + r;
        forall i, j | 0 <= i < j < |c| ensures c[i] != c[j] {
          assert c[j] == r[j - 1];
          if i > 0 { assert c[i] == r[i - 1]; } else { assert r[j - 1] in r; }
        }
      }
    }
  }

  lemma AppendThree<T>(a: seq<T>, b: seq<T>, c: seq<T>, d: seq<T>)
    ensures a + b + c + d == a + (b + c + d)
  {
  }
}
