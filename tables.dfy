/** Properties of a table held as the sequence of its rows in insertion order:
    ids and creation ticks strictly increase (AUTOINCREMENT and a clock that
    never goes back), unique columns hold distinct values, and the lemmas that
    inserting, filtering and updating rows keep these. */
module Tables {
  import opened Seqs

  /** Rows in insertion order, stated from the last row back: the last row's
      id lies in [1, nextId) and its creation tick below `clock`, and the rows
      before it lie below the last one's id and tick. */
  predicate InOrder<T>(s: seq<T>, id: T -> nat, created: T -> nat, nextId: nat, clock: nat)
    decreases |s|
  {
    if s == [] then true
    else
      var x := s[|s| - 1];
      1 <= id(x) < nextId && created(x) < clock && InOrder(s[..|s| - 1], id, created, id(x), created(x))
  }

  /** No row agrees on `key` with a row before it. */
  predicate Distinct<T>(s: seq<T>, key: T -> string)
    decreases |s|
  {
    if s == [] then true
    else
      var p := s[..|s| - 1];
      Distinct(p, key) && forall i :: 0 <= i < |p| ==> key(p[i]) != key(s[|s| - 1])
  }

  /** Ids are in [1, nextId), creation ticks below `clock`, and both strictly
      increase along the sequence. */
  predicate Chronological<T>(s: seq<T>, id: T -> nat, created: T -> nat, nextId: nat, clock: nat) {
    && (forall i :: 0 <= i < |s| ==> 1 <= id(s[i]) < nextId && created(s[i]) < clock)
    && (forall i, j :: 0 <= i < j < |s| ==> id(s[i]) < id(s[j]) && created(s[i]) < created(s[j]))
  }

  /** No two rows agree on `key`. */
  predicate UniqueBy<T>(s: seq<T>, key: T -> string) {
    forall i, j :: 0 <= i < j < |s| ==> key(s[i]) != key(s[j])
  }

  /** Creation ticks strictly decrease: the order `ORDER BY created_at DESC` gives. */
  predicate NewestFirst<T>(s: seq<T>, created: T -> nat) {
    forall i, j :: 0 <= i < j < |s| ==> created(s[i]) > created(s[j])
  }

  lemma ChronologicalAppend<T>(s: seq<T>, x: T, id: T -> nat, created: T -> nat, nextId: nat, clock: nat)
    requires Chronological(s, id, created, nextId, clock)
    requires 1 <= nextId == id(x) && created(x) == clock
    ensures Chronological(s + [x], id, created, nextId + 1, clock + 1)
  {
  }

  lemma ChronologicalLater<T>(s: seq<T>, id: T -> nat, created: T -> nat, nextId: nat, clock: nat, nextId': nat, clock': nat)
    requires Chronological(s, id, created, nextId, clock)
    requires nextId <= nextId' && clock <= clock'
    ensures Chronological(s, id, created, nextId', clock')
  {
  }

  lemma {:induction false} ChronologicalFilter<T>(s: seq<T>, p: T -> bool, id: T -> nat, created: T -> nat, nextId: nat, clock: nat)
    requires Chronological(s, id, created, nextId, clock)
    ensures Chronological(Filter(s, p), id, created, nextId, clock)
  {
    if s != [] {
      var t := s[1..];
      ChronologicalTail(s, id, created, nextId, clock);
      ChronologicalFilter(t, p, id, created, nextId, clock);
      var r := Filter(t, p);
      if p(s[0]) {
        forall k | 0 <= k < |r| ensures id(s[0]) < id(r[k]) && created(s[0]) < created(r[k]) {
          FilterMember(t, p, r[k]);
          var m :| 0 <= m < |t| && t[m] == r[k];
          assert s[m + 1] == r[k];
        }
        ChronologicalCons(s[0], r, id, created, nextId, clock);
        assert Filter(s, p) == [s[0]] + r;
      } else {
        assert Filter(s, p) == r;
      }
    }
  }

  lemma ChronologicalTail<T>(s: seq<T>, id: T -> nat, created: T -> nat, nextId: nat, clock: nat)
    requires s != [] && Chronological(s, id, created, nextId, clock)
    ensures Chronological(s[1..], id, created, nextId, clock)
  {
    var t := s[1..];
    forall i, j | 0 <= i < j < |t| ensures id(t[i]) < id(t[j]) && created(t[i]) < created(t[j]) {
      assert t[i] == s[i + 1] && t[j] == s[j + 1];
    }
  }

  lemma ChronologicalCons<T>(x: T, r: seq<T>, id: T -> nat, created: T -> nat, nextId: nat, clock: nat)
    requires Chronological(r, id, created, nextId, clock)
    requires 1 <= id(x) < nextId && created(x) < clock
    requires forall k :: 0 <= k < |r| ==> id(x) < id(r[k]) && created(x) < created(r[k])
    ensures Chronological([x] + r, id, created, nextId, clock)
  {
    var c := [x] + r;
    forall i, j | 0 <= i < j < |c| ensures id(c[i]) < id(c[j]) && created(c[i]) < created(c[j]) {
      assert c[j] == r[j - 1];
      if i > 0 { assert c[i] == r[i - 1]; }
    }
  }

  lemma {:induction false} UniqueFilter<T>(s: seq<T>, p: T -> bool, key: T -> string)
    requires UniqueBy(s, key)
    ensures UniqueBy(Filter(s, p), key)
  {
    if s != [] {
      var t := s[1..];
      assert UniqueBy(t, key) by {
        forall i, j | 0 <= i < j < |t| ensures key(t[i]) != key(t[j]) {
          assert t[i] == s[i + 1] && t[j] == s[j + 1];
        }
      }
      UniqueFilter(t, p, key);
      var r := Filter(t, p);
      forall k | 0 <= k < |r| ensures key(s[0]) != key(r[k]) {
        FilterMember(t, p, r[k]);
        var m :| 0 <= m < |t| && t[m] == r[k];
        assert s[m + 1] == r[k];
      }
    }
  }

  lemma UniqueAppend<T>(s: seq<T>, x: T, key: T -> string)
    requires UniqueBy(s, key)
    requires forall i :: 0 <= i < |s| ==> key(s[i]) != key(x)
    ensures UniqueBy(s + [x], key)
  {
  }

  /** Reading rows newest first is reading them backwards. */
  lemma ReverseNewestFirst<T>(s: seq<T>, id: T -> nat, created: T -> nat, nextId: nat, clock: nat)
    requires Chronological(s, id, created, nextId, clock)
    ensures NewestFirst(Reverse(s), created)
  {
  }

  /** An update that keeps each row's id and creation tick keeps the table
      chronological. */
  lemma MapChronological<T>(s: seq<T>, f: T -> T, id: T -> nat, created: T -> nat, nextId: nat, clock: nat)
    requires Chronological(s, id, created, nextId, clock)
    requires forall i :: 0 <= i < |s| ==> id(f(s[i])) == id(s[i]) && created(f(s[i])) == created(s[i])
    ensures Chronological(Map(s, f), id, created, nextId, clock)
  {
  }

  /** An update that keeps each row's key keeps the key unique. */
  lemma MapUnique<T>(s: seq<T>, f: T -> T, key: T -> string)
    requires UniqueBy(s, key)
    requires forall i :: 0 <= i < |s| ==> key(f(s[i])) == key(s[i])
    ensures UniqueBy(Map(s, f), key)
  {
  }

  /** Ids strictly increase, so they are distinct. */
  lemma ChronologicalIdsDistinct<T>(s: seq<T>, id: T -> nat, created: T -> nat, nextId: nat, clock: nat, i: nat, j: nat)
    requires Chronological(s, id, created, nextId, clock)
    requires i < |s| && j < |s| && id(s[i]) == id(s[j])
    ensures i == j
  {
  }

  /** The two statements of insertion order agree. */
  lemma {:induction false} InOrderChronological<T>(s: seq<T>, id: T -> nat, created: T -> nat, nextId: nat, clock: nat)
    ensures InOrder(s, id, created, nextId, clock) <==> Chronological(s, id, created, nextId, clock)
    decreases |s|
  {
    if s != [] {
      var p, x := s[..|s| - 1], s[|s| - 1];
      InOrderChronological(p, id, created, id(x), created(x));
      assert forall i :: 0 <= i < |p| ==> p[i] == s[i];
      if Chronological(s, id, created, nextId, clock) {
        assert forall i :: 0 <= i < |p| ==> id(s[i]) < id(x) && created(s[i]) < created(x) by {
          forall i | 0 <= i < |p| ensures id(s[i]) < id(x) && created(s[i]) < created(x) {
            assert i < |s| - 1;
          }
        }
      }
    }
  }

  /** The two statements of key uniqueness agree. */
  lemma {:induction false} DistinctUnique<T>(s: seq<T>, key: T -> string)
    ensures Distinct(s, key) <==> UniqueBy(s, key)
    decreases |s|
  {
    if s != [] {
      var p := s[..|s| - 1];
      DistinctUnique(p, key);
      assert forall i :: 0 <= i < |p| ==> p[i] == s[i];
    }
  }

  lemma InOrderAppend<T>(s: seq<T>, x: T, id: T -> nat, created: T -> nat, nextId: nat, clock: nat)
    requires InOrder(s, id, created, nextId, clock)
    requires 1 <= nextId == id(x) && created(x) == clock
    ensures InOrder(s + [x], id, created, nextId + 1, clock + 1)
  {
    assert (s + [x])[..|s|] == s;
  }

  lemma InOrderLater<T>(s: seq<T>, id: T -> nat, created: T -> nat, nextId: nat, clock: nat, nextId': nat, clock': nat)
    requires InOrder(s, id, created, nextId, clock)
    requires nextId <= nextId' && clock <= clock'
    ensures InOrder(s, id, created, nextId', clock')
  {
  }

  lemma InOrderFilter<T>(s: seq<T>, p: T -> bool, id: T -> nat, created: T -> nat, nextId: nat, clock: nat)
    requires InOrder(s, id, created, nextId, clock)
    ensures InOrder(Filter(s, p), id, created, nextId, clock)
  {
    InOrderChronological(s, id, created, nextId, clock);
    ChronologicalFilter(s, p, id, created, nextId, clock);
    InOrderChronological(Filter(s, p), id, created, nextId, clock);
  }

  lemma InOrderMap<T>(s: seq<T>, f: T -> T, id: T -> nat, created: T -> nat, nextId: nat, clock: nat)
    requires InOrder(s, id, created, nextId, clock)
    requires forall i :: 0 <= i < |s| ==> id(f(s[i])) == id(s[i]) && created(f(s[i])) == created(s[i])
    ensures InOrder(Map(s, f), id, created, nextId, clock)
  {
    InOrderChronological(s, id, created, nextId, clock);
    MapChronological(s, f, id, created, nextId, clock);
    InOrderChronological(Map(s, f), id, created, nextId, clock);
  }

  lemma InOrderNewestFirst<T>(s: seq<T>, id: T -> nat, created: T -> nat, nextId: nat, clock: nat)
    requires InOrder(s, id, created, nextId, clock)
    ensures NewestFirst(Reverse(s), created)
  {
    InOrderChronological(s, id, created, nextId, clock);
    ReverseNewestFirst(s, id, created, nextId, clock);
  }

  lemma DistinctAppend<T>(s: seq<T>, x: T, key: T -> string)
    requires Distinct(s, key)
    requires forall i :: 0 <= i < |s| ==> key(s[i]) != key(x)
    ensures Distinct(s + [x], key)
  {
    assert (s + [x])[..|s|] == s;
  }

  lemma DistinctFilter<T>(s: seq<T>, p: T -> bool, key: T -> string)
    requires Distinct(s, key)
    ensures Distinct(Filter(s, p), key)
  {
    DistinctUnique(s, key);
    UniqueFilter(s, p, key);
    DistinctUnique(Filter(s, p), key);
  }

  lemma DistinctMap<T>(s: seq<T>, f: T -> T, key: T -> string)
    requires Distinct(s, key)
    requires forall i :: 0 <= i < |s| ==> key(f(s[i])) == key(s[i])
    ensures Distinct(Map(s, f), key)
  {
    DistinctUnique(s, key);
    MapUnique(s, f, key);
    DistinctUnique(Map(s, f), key);
  }
}
