// The hand-written binary heap of the pathfinder, ordered by (f, h, y, x).

module Heap {
  datatype Node = Node(idx: int, f: int, h: int, x: int, y: int)

  predicate Less(a: Node, b: Node) {
    if a.f != b.f then a.f < b.f
    else if a.h != b.h then a.h < b.h
    else if a.y != b.y then a.y < b.y
    else a.x < b.x
  }

  /** The first number in which two lists differ is less. */
  predicate Before(a: seq<int>, b: seq<int>) {
    exists k | 0 <= k < |a| && k < |b| :: a[..k] == b[..k] && a[k] < b[k]
  }

  /** The order of the nodes is that of their numbers f, h, y and x, the first one to
      differ deciding. */
  lemma LessMeans(a: Node, b: Node)
    ensures Less(a, b) <==> Before([a.f, a.h, a.y, a.x], [b.f, b.h, b.y, b.x])
  {
    var p, q := [a.f, a.h, a.y, a.x], [b.f, b.h, b.y, b.x];
    assert p[..0] == q[..0];
    assert p[..1] == [a.f] && q[..1] == [b.f];
    assert p[..2] == [a.f, a.h] && q[..2] == [b.f, b.h];
    assert p[..3] == [a.f, a.h, a.y] && q[..3] == [b.f, b.h, b.y];
    if k :| 0 <= k < 4 && p[..k] == q[..k] && p[k] < q[k] {
      assert k == 0 || k == 1 || k == 2 || k == 3;
    }
  }

  function Parent(i: int): int
    requires 0 < i
  {
    (i - 1) / 2
  }

  predicate AtLeastParent(s: seq<Node>, i: int)
    requires 0 < i < |s|
  {
    !Less(s[i], s[Parent(i)])
  }

  /** No entry is less than its parent. */
  ghost predicate Ordered(s: seq<Node>) {
    forall i | 0 < i < |s| :: AtLeastParent(s, i)
  }

  /** `n` is one of the entries and no entry is less. */
  ghost predicate IsLeast(open: multiset<Node>, n: Node) {
    n in open && forall m | m in open :: !Less(m, n)
  }

  lemma {:induction false} RootNotGreater(s: seq<Node>, i: int)
    requires Ordered(s) && 0 <= i < |s|
    ensures !Less(s[i], s[0])
    decreases i
  {
    if i > 0 {
      assert AtLeastParent(s, i);
      RootNotGreater(s, Parent(i));
    }
  }

  lemma RootIsLeast(s: seq<Node>)
    requires Ordered(s) && |s| > 0
    ensures IsLeast(multiset(s), s[0])
  {
    forall m | m in multiset(s) ensures !Less(m, s[0]) {
      var i :| 0 <= i < |s| && s[i] == m;
      RootNotGreater(s, i);
    }
  }

  function Swapped(s: seq<Node>, i: int, j: int): (r: seq<Node>)
    requires 0 <= i < |s| && 0 <= j < |s|
    ensures multiset(r) == multiset(s)
  {
    s[i := s[j]][j := s[i]]
  }

  predicate AtLeastGrandparent(s: seq<Node>, j: int)
    requires 0 < j < |s|
  {
    Parent(j) > 0 ==> !Less(s[j], s[Parent(Parent(j))])
  }

  /** Ordered except that entry `i` may be less than its parent. */
  ghost predicate OrderedButFor(s: seq<Node>, i: int) {
    && (forall j | 0 < j < |s| && j != i :: AtLeastParent(s, j))
    && (forall j | 0 < j < |s| && Parent(j) == i :: AtLeastGrandparent(s, j))
  }

  /** Ordered except that the children of entry `i` may be less than it. */
  ghost predicate OrderedButUnder(s: seq<Node>, i: int) {
    && (forall j | 0 < j < |s| && Parent(j) != i :: AtLeastParent(s, j))
    && (forall j | 0 < j < |s| && Parent(j) == i :: AtLeastGrandparent(s, j))
  }

  lemma Appended(s: seq<Node>, n: Node)
    requires Ordered(s)
    ensures OrderedButFor(s + [n], |s|)
  {
    var t := s + [n];
    forall j | 0 < j < |t| && j != |s| ensures AtLeastParent(t, j) {
      assert AtLeastParent(s, j);
    }
  }

  lemma SiftUpStep(s: seq<Node>, i: int)
    requires 0 < i < |s| && OrderedButFor(s, i) && !AtLeastParent(s, i)
    ensures OrderedButFor(Swapped(s, i, Parent(i)), Parent(i))
  {
    var p, t := Parent(i), Swapped(s, i, Parent(i));
    forall j | 0 < j < |t| && j != p ensures AtLeastParent(t, j) {
      assert j == i || AtLeastParent(s, j);
      assert Parent(j) != i || AtLeastGrandparent(s, j);
    }
    forall j | 0 < j < |t| && Parent(j) == p ensures AtLeastGrandparent(t, j) {
      assert p == 0 || AtLeastParent(s, p);
      assert j == i || AtLeastParent(s, j);
    }
  }

  lemma SiftUpDone(s: seq<Node>, i: int)
    requires 0 <= i < |s| && OrderedButFor(s, i) && (i == 0 || AtLeastParent(s, i))
    ensures Ordered(s)
  {
  }

  /** The least of an entry and its children. */
  function Smallest(s: seq<Node>, i: int): (r: int)
    requires 0 <= i < |s|
    ensures i <= r < |s| && (r != i ==> Parent(r) == i && Less(s[r], s[i]))
    ensures 2 * i + 1 < |s| ==> !Less(s[2 * i + 1], s[r])
    ensures 2 * i + 2 < |s| ==> !Less(s[2 * i + 2], s[r])
  {
    var l, r := 2 * i + 1, 2 * i + 2;
    var a := if l < |s| && Less(s[l], s[i]) then l else i;
    if r < |s| && Less(s[r], s[a]) then r else a
  }

  lemma ChildIndex(j: int, i: int)
    requires 0 < j && 0 <= i
    ensures Parent(j) == i <==> j == 2 * i + 1 || j == 2 * i + 2
  {
  }

  lemma SiftDownStep(s: seq<Node>, i: int)
    requires 0 <= i < |s| && OrderedButUnder(s, i) && Smallest(s, i) != i
    ensures OrderedButUnder(Swapped(s, i, Smallest(s, i)), Smallest(s, i))
  {
    var c := Smallest(s, i);
    var t := Swapped(s, i, c);
    forall j | 0 < j < |t| && Parent(j) != c ensures AtLeastParent(t, j) {
      ChildIndex(j, i);
      assert Parent(j) == i || AtLeastParent(s, j);
      assert j != i || AtLeastGrandparent(s, c);
    }
    forall j | 0 < j < |t| && Parent(j) == c ensures AtLeastGrandparent(t, j) {
      assert AtLeastParent(s, j);
    }
  }

  lemma SiftDownDone(s: seq<Node>, i: int)
    requires 0 <= i <= |s| && OrderedButUnder(s, i) && (i < |s| ==> Smallest(s, i) == i)
    ensures Ordered(s)
  {
    forall j | 0 < j < |s| ensures AtLeastParent(s, j) {
      ChildIndex(j, i);
    }
  }

  lemma WithoutFirst<T>(s: seq<T>)
    requires |s| > 0
    ensures multiset(s[0 := s[|s| - 1]][..|s| - 1]) == multiset(s) - multiset{s[0]}
  {
    var last := |s| - 1;
    var a := s[..last];
    assert s == a + [s[last]];
    if last > 0 {
      assert s[0 := s[last]][..last] == a[0 := s[last]];
    }
  }

  /** What is left after the root is replaced by the last entry. */
  lemma RootReplaced(s: seq<Node>)
    requires Ordered(s) && |s| > 0
    ensures var t := s[0 := s[|s| - 1]][..|s| - 1];
            OrderedButUnder(t, 0) && multiset(t) == multiset(s) - multiset{s[0]}
  {
    var last := |s| - 1;
    var t := s[0 := s[last]][..last];
    forall j | 0 < j < |t| && Parent(j) != 0 ensures AtLeastParent(t, j) {
      assert AtLeastParent(s, j);
    }
    WithoutFirst(s);
  }

  class NodeHeap {
    var nodes: seq<Node>

    constructor ()
      ensures nodes == []
    {
      nodes := [];
    }

    method Clear()
      modifies this
      ensures nodes == []
    {
      nodes := [];
    }

    method Push(n: Node)
      requires Ordered(nodes)
      modifies this
      ensures Ordered(nodes)
      ensures multiset(nodes) == old(multiset(nodes)) + multiset{n}
    {
      Appended(nodes, n);
      nodes := nodes + [n];
      var i := |nodes| - 1;
      while i > 0
        invariant 0 <= i < |nodes|
        invariant OrderedButFor(nodes, i)
        invariant multiset(nodes) == old(multiset(nodes)) + multiset{n}
      {
        var parent := Parent(i);
        if !Less(nodes[i], nodes[parent]) {
          break;
        }
        SiftUpStep(nodes, i);
        nodes := Swapped(nodes, i, parent);
        i := parent;
      }
      SiftUpDone(nodes, i);
    }

    /** Takes out the least entry. */
    method Pop() returns (top: Node)
      requires Ordered(nodes) && |nodes| > 0
      modifies this
      ensures Ordered(nodes)
      ensures IsLeast(old(multiset(nodes)), top)
      ensures multiset(nodes) == old(multiset(nodes)) - multiset{top}
    {
      RootIsLeast(nodes);
      RootReplaced(nodes);
      top := nodes[0];
      var last := |nodes| - 1;
      nodes := nodes[0 := nodes[last]][..last];
      ghost var rest := multiset(nodes);

      var i, n := 0, last;
      while i < n
        invariant 0 <= i <= |nodes| == n
        invariant OrderedButUnder(nodes, i)
        invariant multiset(nodes) == rest
      {
        var l, r := 2 * i + 1, 2 * i + 2;
        var smallest := i;
        if l < n && Less(nodes[l], nodes[smallest]) {
          smallest := l;
        }
        if r < n && Less(nodes[r], nodes[smallest]) {
          smallest := r;
        }
        assert smallest == Smallest(nodes, i);
        if smallest == i {
          break;
        }
        SiftDownStep(nodes, i);
        nodes := Swapped(nodes, i, smallest);
        i := smallest;
      }
      SiftDownDone(nodes, i);
    }
  }
}
