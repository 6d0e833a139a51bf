/** A stable insertion sort into non-increasing order of an integer key: the order of
    `Array.prototype.sort((a, b) => b.count - a.count)`, which is stable, and of a store query
    sorted on one field descending. */
module Sorting {
  import opened Seqs

  predicate Descending<T>(s: seq<T>, key: T -> int)
  {
    forall i, j :: 0 <= i < j < |s| ==> key(s[i]) >= key(s[j])
  }

  /** The test "has key `k`", used to state stability. */
  function HasKey<T>(key: T -> int, k: int): T -> bool
  {
    x => key(x) == k
  }

  /** Inserts `x` after every element whose key is at least its own. */
  function InsertDesc<T>(s: seq<T>, x: T, key: T -> int): (r: seq<T>)
    ensures |r| == |s| + 1
    decreases |s|
  {
    if s == [] then [x]
    else if key(s[0]) >= key(x) then [s[0]] + InsertDesc(s[1..], x, key)
    else [x] + s
  }

  /** Sorts by inserting the elements one by one, first to last. */
  function SortDesc<T>(s: seq<T>, key: T -> int): (r: seq<T>)
    ensures |r| == |s|
    decreases |s|
  {
    if s == [] then []
    else InsertDesc(SortDesc(s[..|s| - 1], key), s[|s| - 1], key)
  }

  /** Inserting adds exactly `x`. */
  lemma {:induction false} InsertDescPermutes<T>(s: seq<T>, x: T, key: T -> int)
    ensures multiset(InsertDesc(s, x, key)) == multiset(s) + multiset{x}
    decreases |s|
  {
    if s != [] && key(s[0]) >= key(x) {
      InsertDescPermutes(s[1..], x, key);
      assert s == [s[0]] + s[1..];
    }
  }

  /** The sort is a permutation of its input. */
  lemma {:induction false} SortDescPermutes<T>(s: seq<T>, key: T -> int)
    ensures multiset(SortDesc(s, key)) == multiset(s)
    decreases |s|
  {
    if s != [] {
      var init := s[..|s| - 1];
      SortDescPermutes(init, key);
      InsertDescPermutes(SortDesc(init, key), s[|s| - 1], key);
      assert s == init + [s[|s| - 1]];
    }
  }

  /** Inserting into a descending sequence keeps it descending. */
  lemma {:induction false} InsertDescSorted<T>(s: seq<T>, x: T, key: T -> int)
    requires Descending(s, key)
    ensures Descending(InsertDesc(s, x, key), key)
    ensures InsertDesc(s, x, key)[0] == x || (s != [] && InsertDesc(s, x, key)[0] == s[0])
    decreases |s|
  {
    if s != [] && key(s[0]) >= key(x) {
      InsertDescSorted(s[1..], x, key);
    }
  }

  /** The sort yields a descending sequence. */
  lemma {:induction false} SortDescSorted<T>(s: seq<T>, key: T -> int)
    ensures Descending(SortDesc(s, key), key)
    decreases |s|
  {
    if s != [] {
      var init := s[..|s| - 1];
      SortDescSorted(init, key);
      InsertDescSorted(SortDesc(init, key), s[|s| - 1], key);
    }
  }

  /** The sorted sequence holds exactly the elements of the input. */
  lemma SortedKeepsMembers<T>(s: seq<T>, key: T -> int)
    ensures forall i :: 0 <= i < |SortDesc(s, key)| ==> SortDesc(s, key)[i] in s
    ensures forall i :: 0 <= i < |s| ==> s[i] in SortDesc(s, key)
  {
    var r := SortDesc(s, key);
    SortDescPermutes(s, key);
    forall i | 0 <= i < |r|
      ensures r[i] in s
    {
      assert r[i] in multiset(r);
    }
    forall i | 0 <= i < |s|
      ensures s[i] in r
    {
      assert s[i] in multiset(s);
    }
  }

  /** In a descending sequence, an element beyond the first `n` has a key no larger than any of
      them. */
  lemma PrefixDominates<T>(s: seq<T>, n: nat, key: T -> int, x: T)
    requires Descending(s, key) && n <= |s| && x in s && x !in s[..n]
    ensures forall i :: 0 <= i < n ==> key(s[i]) >= key(x)
  {
    var m :| 0 <= m < |s| && s[m] == x;
  }

  lemma {:induction false} InsertDescStable<T>(s: seq<T>, x: T, key: T -> int, k: int)
    requires Descending(s, key)
    ensures Filter(InsertDesc(s, x, key), HasKey(key, k))
         == Filter(s, HasKey(key, k)) + Filter([x], HasKey(key, k))
    decreases |s|
  {
    if s != [] {
      if key(s[0]) >= key(x) {
        InsertAfterHeadStable(s, x, key, k);
      } else {
        InsertBeforeHeadStable(s, x, key, k);
      }
    }
  }

  lemma {:induction false} InsertAfterHeadStable<T>(s: seq<T>, x: T, key: T -> int, k: int)
    requires Descending(s, key) && s != [] && key(s[0]) >= key(x)
    ensures Filter(InsertDesc(s, x, key), HasKey(key, k))
         == Filter(s, HasKey(key, k)) + Filter([x], HasKey(key, k))
    decreases |s|, 0
  {
    var p, head, tail := HasKey(key, k), [s[0]], s[1..];
    var t := InsertDesc(tail, x, key);
    assert InsertDesc(s, x, key) == head + t;
    assert Descending(tail, key);
    InsertDescStable(tail, x, key, k);
    FilterConcat(head, t, p);
    assert s == head + tail;
    FilterConcat(head, tail, p);
  }

  lemma InsertBeforeHeadStable<T>(s: seq<T>, x: T, key: T -> int, k: int)
    requires Descending(s, key) && s != [] && key(s[0]) < key(x)
    ensures Filter(InsertDesc(s, x, key), HasKey(key, k))
         == Filter(s, HasKey(key, k)) + Filter([x], HasKey(key, k))
  {
    var p := HasKey(key, k);
    assert InsertDesc(s, x, key) == [x] + s;
    FilterConcat([x], s, p);
    if key(x) == k {
      forall i | 0 <= i < |s|
        ensures !p(s[i])
      {
        assert key(s[i]) <= key(s[0]);
      }
      FilterNone(s, p);
    }
  }

  /** Elements with equal keys keep their relative order. */
  lemma {:induction false} SortDescStable<T>(s: seq<T>, key: T -> int, k: int)
    ensures Filter(SortDesc(s, key), HasKey(key, k)) == Filter(s, HasKey(key, k))
    decreases |s|
  {
    if s != [] {
      var init, last, p := s[..|s| - 1], s[|s| - 1], HasKey(key, k);
      var sortedInit := SortDesc(init, key);
      assert SortDesc(s, key) == InsertDesc(sortedInit, last, key);
      SortDescSorted(init, key);
      SortDescStable(init, key, k);
      InsertDescStable(sortedInit, last, key, k);
      assert Filter(SortDesc(s, key), p) == Filter(init, p) + Filter([last], p);
      assert s == init + [last];
      FilterConcat(init, [last], p);
    }
  }

  /** Pairwise distinct values of `f` along `s`. */
  ghost predicate InjectiveOn<T, U>(s: seq<T>, f: T -> U)
  {
    forall i, j :: 0 <= i < j < |s| ==> f(s[i]) != f(s[j])
  }

  lemma {:induction false} InsertDescInjective<T, U>(s: seq<T>, x: T, key: T -> int, f: T -> U)
    requires InjectiveOn(s, f)
    requires forall i :: 0 <= i < |s| ==> f(s[i]) != f(x)
    ensures InjectiveOn(InsertDesc(s, x, key), f)
    decreases |s|
  {
    if s != [] && key(s[0]) >= key(x) {
      InsertDescInjective(s[1..], x, key, f);
      var r := InsertDesc(s[1..], x, key);
      InsertDescPermutes(s[1..], x, key);
      forall i | 0 <= i < |r|
        ensures f(r[i]) != f(s[0])
      {
        assert r[i] in multiset(r);
        assert r[i] in s[1..] || r[i] == x;
      }
    }
  }

  /** Sorting keeps distinct values of `f` distinct. */
  lemma {:induction false} SortDescInjective<T, U>(s: seq<T>, key: T -> int, f: T -> U)
    requires InjectiveOn(s, f)
    ensures InjectiveOn(SortDesc(s, key), f)
    decreases |s|
  {
    if s != [] {
      var init, last := s[..|s| - 1], s[|s| - 1];
      SortDescInjective(init, key, f);
      var r := SortDesc(init, key);
      SortDescPermutes(init, key);
      forall i | 0 <= i < |r|
        ensures f(r[i]) != f(last)
      {
        assert r[i] in multiset(r);
        assert r[i] in init;
      }
      InsertDescInjective(r, last, key, f);
    }
  }
}
