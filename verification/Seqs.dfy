// Folds over sequences, taken from the back so that a loop that appends
// follows them, and sorting by a key.

module Seqs {
  function Map<A, B>(s: seq<A>, f: A -> B): seq<B> {
    if |s| == 0 then [] else Map(s[..|s| - 1], f) + [f(s[|s| - 1])]
  }

  function Filter<A>(s: seq<A>, p: A -> bool): seq<A> {
    if |s| == 0 then [] else
    var rest := Filter(s[..|s| - 1], p);
    if p(s[|s| - 1]) then rest + [s[|s| - 1]] else rest
  }

  function FlatMap<A, B>(s: seq<A>, f: A -> seq<B>): seq<B> {
    if |s| == 0 then [] else FlatMap(s[..|s| - 1], f) + f(s[|s| - 1])
  }

  function Count<A>(s: seq<A>, p: A -> bool): nat {
    if |s| == 0 then 0 else Count(s[..|s| - 1], p) + if p(s[|s| - 1]) then 1 else 0
  }

  /** Keeps the order and adds only what is not there yet. */
  function AddNew<A(==)>(s: seq<A>, more: seq<A>): seq<A> {
    if |more| == 0 then s else
    var rest := AddNew(s, more[..|more| - 1]);
    if more[|more| - 1] in rest then rest else rest + [more[|more| - 1]]
  }

  lemma {:induction false} InMap<A, B>(s: seq<A>, f: A -> B)
    ensures |Map(s, f)| == |s|
    ensures forall k :: 0 <= k < |s| ==> Map(s, f)[k] == f(s[k])
  {
    if |s| > 0 {
      InMap(s[..|s| - 1], f);
    }
  }

  lemma {:induction false} InFilter<A>(s: seq<A>, p: A -> bool, x: A)
    ensures x in Filter(s, p) <==> x in s && p(x)
  {
    if |s| > 0 {
      InFilter(s[..|s| - 1], p, x);
      assert s == s[..|s| - 1] + [s[|s| - 1]];
    }
  }

  lemma {:induction false} InFlatMap<A, B>(s: seq<A>, f: A -> seq<B>, y: B)
    ensures y in FlatMap(s, f) <==> exists x :: x in s && y in f(x)
  {
    if |s| > 0 {
      InFlatMap(s[..|s| - 1], f, y);
      assert s == s[..|s| - 1] + [s[|s| - 1]];
    }
  }

  lemma {:induction false} InAddNew<A>(s: seq<A>, more: seq<A>, x: A)
    ensures x in AddNew(s, more) <==> x in s || x in more
  {
    if |more| > 0 {
      InAddNew(s, more[..|more| - 1], x);
      assert more == more[..|more| - 1] + [more[|more| - 1]];
    }
  }

  predicate NoDuplicates<A(==)>(s: seq<A>) {
    forall j, k :: 0 <= j < k < |s| ==> s[j] != s[k]
  }

  lemma {:induction false} AddNewKeepsDistinct<A>(s: seq<A>, more: seq<A>)
    requires NoDuplicates(s)
    ensures NoDuplicates(AddNew(s, more))
  {
    if |more| > 0 {
      AddNewKeepsDistinct(s, more[..|more| - 1]);
    }
  }

  function InsertBy<A>(s: seq<A>, x: A, key: A -> int): seq<A> {
    if |s| == 0 || key(s[|s| - 1]) <= key(x) then s + [x]
    else InsertBy(s[..|s| - 1], x, key) + [s[|s| - 1]]
  }

  function SortBy<A>(s: seq<A>, key: A -> int): seq<A> {
    if |s| == 0 then [] else InsertBy(SortBy(s[..|s| - 1], key), s[|s| - 1], key)
  }

  predicate SortedBy<A>(s: seq<A>, key: A -> int) {
    forall j, k :: 0 <= j <= k < |s| ==> key(s[j]) <= key(s[k])
  }

  lemma {:induction false} InsertAdds<A>(s: seq<A>, x: A, key: A -> int)
    ensures multiset(InsertBy(s, x, key)) == multiset(s) + multiset{x}
  {
    if |s| > 0 && key(s[|s| - 1]) > key(x) {
      InsertAdds(s[..|s| - 1], x, key);
      assert s == s[..|s| - 1] + [s[|s| - 1]];
    }
  }

  lemma InInsert<A>(s: seq<A>, x: A, key: A -> int, y: A)
    ensures y in InsertBy(s, x, key) <==> y in s || y == x
  {
    InsertAdds(s, x, key);
    assert y in multiset(InsertBy(s, x, key)) <==> y in multiset(s) + multiset{x};
  }

  lemma {:induction false} InsertKeepsSorted<A>(s: seq<A>, x: A, key: A -> int)
    requires SortedBy(s, key)
    ensures SortedBy(InsertBy(s, x, key), key)
  {
    if |s| > 0 && key(s[|s| - 1]) > key(x) {
      InsertKeepsSorted(s[..|s| - 1], x, key);
      var r := InsertBy(s[..|s| - 1], x, key);
      forall k | 0 <= k < |r| ensures key(r[k]) <= key(s[|s| - 1]) {
        InInsert(s[..|s| - 1], x, key, r[k]);
      }
    }
  }

  /** Sorting is a permutation, in order of key. */
  lemma {:induction false} SortIsSorted<A>(s: seq<A>, key: A -> int)
    ensures SortedBy(SortBy(s, key), key)
    ensures multiset(SortBy(s, key)) == multiset(s)
  {
    if |s| > 0 {
      SortIsSorted(s[..|s| - 1], key);
      InsertKeepsSorted(SortBy(s[..|s| - 1], key), s[|s| - 1], key);
      InsertAdds(SortBy(s[..|s| - 1], key), s[|s| - 1], key);
      assert s == s[..|s| - 1] + [s[|s| - 1]];
    }
  }

  lemma InSort<A>(s: seq<A>, key: A -> int, x: A)
    ensures x in SortBy(s, key) <==> x in s
  {
    SortIsSorted(s, key);
    assert x in multiset(s) <==> x in s;
    assert x in multiset(SortBy(s, key)) <==> x in SortBy(s, key);
  }

  lemma {:induction false} CountAppend<A>(s: seq<A>, t: seq<A>, p: A -> bool)
    ensures Count(s + t, p) == Count(s, p) + Count(t, p)
  {
    if |t| == 0 {
      assert s + t == s;
    } else {
      assert (s + t)[..|s + t| - 1] == s + t[..|t| - 1];
      CountAppend(s, t[..|t| - 1], p);
    }
  }

  lemma CountOneMore<A>(s: seq<A>, x: A, p: A -> bool)
    ensures Count(s + [x], p) == Count(s, p) + if p(x) then 1 else 0
  {
    assert (s + [x])[..|s|] == s;
  }

  lemma {:induction false} CountMap<A>(s: seq<A>, f: A -> A, p: A -> bool)
    requires forall x :: x in s ==> p(f(x)) == p(x)
    ensures Count(Map(s, f), p) == Count(s, p)
  {
    if |s| > 0 {
      CountMap(s[..|s| - 1], f, p);
    }
  }

  /** Counting may be done on each side of a test. */
  lemma {:induction false} CountSplits<A>(s: seq<A>, side: A -> bool, other: A -> bool, p: A -> bool)
    requires forall x :: x in s ==> other(x) == !side(x)
    ensures Count(s, p) == Count(Filter(s, side), p) + Count(Filter(s, other), p)
  {
    if |s| > 0 {
      var init, last := s[..|s| - 1], s[|s| - 1];
      CountSplits(init, side, other, p);
      CountOneMore(Filter(init, side), last, p);
      CountOneMore(Filter(init, other), last, p);
    }
  }

  lemma {:induction false} CountInsert<A>(s: seq<A>, x: A, key: A -> int, p: A -> bool)
    ensures Count(InsertBy(s, x, key), p) == Count(s, p) + if p(x) then 1 else 0
  {
    if |s| > 0 && key(s[|s| - 1]) > key(x) {
      CountInsert(s[..|s| - 1], x, key, p);
    }
  }

  lemma {:induction false} CountSort<A>(s: seq<A>, key: A -> int, p: A -> bool)
    ensures Count(SortBy(s, key), p) == Count(s, p)
  {
    if |s| > 0 {
      CountSort(s[..|s| - 1], key, p);
      CountInsert(SortBy(s[..|s| - 1], key), s[|s| - 1], key, p);
    }
  }

  lemma {:induction false} CountSame<A>(s: seq<A>, p: A -> bool, q: A -> bool)
    requires forall x :: x in s ==> p(x) == q(x)
    ensures Count(s, p) == Count(s, q)
  {
    if |s| > 0 {
      CountSame(s[..|s| - 1], p, q);
    }
  }

  lemma {:induction false} FilterSort<A>(s: seq<A>, key: A -> int, p: A -> bool, q: A -> bool)
    ensures Count(Filter(SortBy(s, key), p), q) == Count(Filter(s, p), q)
  {
    FilterCount(SortBy(s, key), p, q);
    FilterCount(s, p, q);
    CountSort(s, key, x => p(x) && q(x));
  }

  lemma {:induction false} FilterCount<A>(s: seq<A>, p: A -> bool, q: A -> bool)
    ensures Count(Filter(s, p), q) == Count(s, x => p(x) && q(x))
  {
    if |s| > 0 {
      FilterCount(s[..|s| - 1], p, q);
      CountOneMore(Filter(s[..|s| - 1], p), s[|s| - 1], q);
    }
  }

  lemma {:induction false} FilterNone<A>(s: seq<A>, p: A -> bool)
    requires forall x :: x in s ==> !p(x)
    ensures Filter(s, p) == []
  {
    if |s| > 0 {
      FilterNone(s[..|s| - 1], p);
    }
  }

  lemma {:induction false} FilterAll<A>(s: seq<A>, p: A -> bool)
    requires forall x :: x in s ==> p(x)
    ensures Filter(s, p) == s
  {
    if |s| > 0 {
      FilterAll(s[..|s| - 1], p);
      assert s == s[..|s| - 1] + [s[|s| - 1]];
    }
  }

  lemma MapSame<A>(s: seq<A>, f: A -> A)
    requires forall x :: x in s ==> f(x) == x
    ensures Map(s, f) == s
  {
    InMap(s, f);
  }

  lemma {:induction false} FlatMapEmpty<A, B>(s: seq<A>, f: A -> seq<B>)
    requires forall x :: x in s ==> f(x) == []
    ensures FlatMap(s, f) == []
  {
    if |s| > 0 {
      FlatMapEmpty(s[..|s| - 1], f);
    }
  }

  // ---------------------------------------------------------------------
  // One turn of a loop
  // ---------------------------------------------------------------------

  lemma FlatMapStep<A, B>(start: seq<B>, s: seq<A>, k: nat, f: A -> seq<B>)
    requires k < |s|
    ensures start + FlatMap(s[..k + 1], f) == start + FlatMap(s[..k], f) + f(s[k])
  {
    assert s[..k + 1][..k] == s[..k];
    assert start + (FlatMap(s[..k], f) + f(s[k])) == start + FlatMap(s[..k], f) + f(s[k]);
  }

  lemma MapStep<A, B>(s: seq<A>, k: nat, f: A -> B)
    requires k < |s|
    ensures Map(s[..k + 1], f) == Map(s[..k], f) + [f(s[k])]
  {
    assert s[..k + 1][..k] == s[..k];
  }

  lemma FilterStep<A>(s: seq<A>, k: nat, p: A -> bool)
    requires k < |s|
    ensures Filter(s[..k + 1], p) == (if p(s[k]) then Filter(s[..k], p) + [s[k]] else Filter(s[..k], p))
  {
    assert s[..k + 1][..k] == s[..k];
  }

  lemma MapFilterStep<A, B>(s: seq<A>, k: nat, p: A -> bool, f: A -> B)
    requires k < |s|
    ensures Map(Filter(s[..k + 1], p), f)
         == (if p(s[k]) then Map(Filter(s[..k], p), f) + [f(s[k])] else Map(Filter(s[..k], p), f))
  {
    FilterStep(s, k, p);
    var kept := Filter(s[..k], p);
    assert (kept + [s[k]])[..|kept|] == kept;
  }

  lemma AddNewOne<A>(s: seq<A>, more: seq<A>, x: A)
    ensures AddNew(AddNew(s, more), [x]) == AddNew(s, more + [x])
  {
    assert [x][..0] == [];
    assert (more + [x])[..|more|] == more;
  }

  /** Noting the key of a row that passes the test. */
  lemma AddNewStep<A, B>(start: seq<B>, s: seq<A>, k: nat, p: A -> bool, f: A -> B)
    requires k < |s|
    ensures AddNew(start, Map(Filter(s[..k + 1], p), f))
         == (if p(s[k]) then AddNew(AddNew(start, Map(Filter(s[..k], p), f)), [f(s[k])])
             else AddNew(start, Map(Filter(s[..k], p), f)))
  {
    MapFilterStep(s, k, p, f);
    AddNewOne(start, Map(Filter(s[..k], p), f), f(s[k]));
  }

  /** A sequence whose first `k` elements have been corrected in place. */
  function Upto<A>(s: seq<A>, k: nat, f: A -> A): seq<A>
    requires k <= |s|
  {
    Map(s[..k], f) + s[k..]
  }

  lemma UptoStep<A>(s: seq<A>, k: nat, f: A -> A)
    requires k < |s|
    ensures |Upto(s, k, f)| == |s| && Upto(s, k, f)[k] == s[k]
    ensures Upto(s, k, f)[k := f(s[k])] == Upto(s, k + 1, f)
  {
    InMap(s[..k], f);
    MapStep(s, k, f);
  }

  lemma UptoEnds<A>(s: seq<A>, f: A -> A)
    ensures Upto(s, 0, f) == s && Upto(s, |s|, f) == Map(s, f)
  {
    assert s[..|s|] == s && s[0..] == s;
  }
}
