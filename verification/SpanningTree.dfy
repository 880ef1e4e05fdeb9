/** The views that the ranks compute separately describe one spanning tree. */
module SpanningTree {
  import opened Arith
  import opened KaryTree

  /** c is in the list computed at p exactly when c computes p as its parent. */
  lemma LocalViewsAgree(t: Topology, p: int, c: int)
    requires t.Valid() && t.IsRank(p) && t.IsRank(c)
    ensures c in t.Children(p) <==> t.Parent(c) == p
    ensures t.Parent(c) == -1 <==> c == t.root
  {
    if c in t.Children(p) {
      var i :| 0 <= i < |t.Children(p)| && t.Children(p)[i] == c;
      ChildPointsBack(t, p, i);
    }
    if c != t.root {
      ParentLists(t, c);
    } else {
      RotateInverse(t, c);
    }
  }

  /** Entry i of p's list is c exactly when c computes parent p and slot i. */
  lemma SlotIs(t: Topology, p: int, i: int, c: int)
    requires t.Valid() && t.IsRank(p) && 0 <= i < |t.Children(p)| && t.IsRank(c) && c != t.root
    ensures t.Children(p)[i] == c <==> t.Parent(c) == p && t.Slot(c) == i
  {
    ChildPointsBack(t, p, i);
    ParentLists(t, c);
  }

  /* ---------- the child lists partition the ranks ---------- */

  /** All entries of the child lists of ranks 0 .. m-1, with multiplicity. */
  ghost function Listed(t: Topology, m: nat): multiset<int>
    requires t.Valid() && m <= t.ranks
  {
    if m == 0 then multiset{} else Listed(t, m - 1) + multiset(t.Children(m - 1))
  }

  /** Over all ranks together, every rank but the root is listed exactly once. */
  lemma ChildListsPartition(t: Topology)
    requires t.Valid()
    ensures forall c :: Listed(t, t.ranks)[c] == if t.IsRank(c) && c != t.root then 1 else 0
  {
    forall c ensures Listed(t, t.ranks)[c] == if t.IsRank(c) && c != t.root then 1 else 0 {
      ListedOnce(t, t.ranks, c);
      if t.IsRank(c) && c != t.root {
        ParentIsCloser(t, c);
      }
    }
  }

  lemma {:induction false} ListedOnce(t: Topology, m: nat, c: int)
    requires t.Valid() && m <= t.ranks
    ensures Listed(t, m)[c] == if t.IsRank(c) && c != t.root && t.Parent(c) < m then 1 else 0
  {
    if m == 0 {
      if t.IsRank(c) && c != t.root { ParentIsCloser(t, c); }
    } else {
      ListedOnce(t, m - 1, c);
      OccursOnce(t, m - 1, c);
    }
  }

  lemma OccursOnce(t: Topology, p: int, c: int)
    requires t.Valid() && t.IsRank(p)
    ensures multiset(t.Children(p))[c] == if t.IsRank(c) && c != t.root && t.Parent(c) == p then 1 else 0
  {
    var kids := t.Children(p);
    if c in kids {
      var i :| 0 <= i < |kids| && kids[i] == c;
      ChildPointsBack(t, p, i);
      assert kids == kids[..i] + [c] + kids[i + 1..];
      forall j | 0 <= j < |kids| && kids[j] == c ensures j == i {
        ChildPointsBack(t, p, j);
      }
      assert c !in kids[..i] && c !in kids[i + 1..];
    } else if t.IsRank(c) {
      LocalViewsAgree(t, p, c);
    }
  }

  /* ---------- every rank reaches the root ---------- */

  /** Number of parent steps from x to the root. */
  function Depth(t: Topology, x: int): nat
    requires t.Valid() && t.IsRank(x)
    decreases t.Unrotate(x)
  {
    if x == t.root then 0 else
      ParentIsCloser(t, x);
      1 + Depth(t, t.Parent(x))
  }

  /** The rank found by following parent_rank d times from x. */
  function Climb(t: Topology, x: int, d: nat): int
    requires t.Valid() && t.IsRank(x) && d <= Depth(t, x)
    decreases d
  {
    if d == 0 then x else
      ParentIsCloser(t, x);
      Climb(t, t.Parent(x), d - 1)
  }

  /** Following parent_rank from any rank reaches the root, and not before Depth steps. */
  lemma {:induction false} ReachesRoot(t: Topology, x: int, d: nat)
    requires t.Valid() && t.IsRank(x) && d <= Depth(t, x)
    ensures t.IsRank(Climb(t, x, d))
    ensures Climb(t, x, d) == t.root <==> d == Depth(t, x)
    ensures Depth(t, x) <= t.Unrotate(x) < t.ranks
    decreases t.Unrotate(x)
  {
    RotateInverse(t, x);
    if x != t.root {
      ParentIsCloser(t, x);
      if d > 0 {
        ReachesRoot(t, t.Parent(x), d - 1);
      } else {
        ReachesRoot(t, t.Parent(x), 0);
      }
    }
  }

  /** a lies on the path of parents from x to the root, x included. */
  predicate Above(t: Topology, a: int, x: int)
    requires t.Valid() && t.IsRank(x)
    decreases t.Unrotate(x)
  {
    a == x || (x != t.root && (ParentIsCloser(t, x); Above(t, a, t.Parent(x))))
  }

  lemma {:induction false} RootAboveAll(t: Topology, x: int)
    requires t.Valid() && t.IsRank(x)
    ensures Above(t, t.root, x)
    decreases t.Unrotate(x)
  {
    if x != t.root {
      ParentIsCloser(t, x);
      RootAboveAll(t, t.Parent(x));
    }
  }

  lemma {:induction false} AboveIsCloser(t: Topology, a: int, x: int)
    requires t.Valid() && t.IsRank(x) && Above(t, a, x)
    ensures t.IsRank(a) && (a == x || t.Unrotate(a) < t.Unrotate(x))
    decreases t.Unrotate(x)
  {
    if a != x {
      ParentIsCloser(t, x);
      AboveIsCloser(t, a, t.Parent(x));
    }
  }

  /** Two different children of one rank have disjoint subtrees. */
  lemma {:induction false} SiblingsDisjoint(t: Topology, a: int, b: int, x: int)
    requires t.Valid() && t.IsRank(x) && t.IsRank(a) && t.IsRank(b)
    requires a != t.root && b != t.root && t.Parent(a) == t.Parent(b)
    requires Above(t, a, x) && Above(t, b, x)
    ensures a == b
    decreases t.Unrotate(x)
  {
    ParentIsCloser(t, a);
    ParentIsCloser(t, b);
    if a == x && b != x {
      AboveIsCloser(t, b, t.Parent(x));
    } else if b == x && a != x {
      AboveIsCloser(t, a, t.Parent(x));
    } else if a != x {
      ParentIsCloser(t, x);
      SiblingsDisjoint(t, a, b, t.Parent(x));
    }
  }

  /* ---------- depth ---------- */

  function Power(k: int, d: nat): int {
    if d == 0 then 1 else k * Power(k, d - 1)
  }

  /** The virtual ranks at depth d are those v with k^d <= v*(k-1)+1 < k^(d+1); as
      both ends are 1 modulo k-1, the upper one can be written k^(d+1)-(k-1). */
  lemma {:induction false} DepthExactly(t: Topology, x: int)
    requires t.Valid() && t.IsRank(x)
    ensures var k, d, v := t.degree, Depth(t, x), t.Unrotate(x);
            Power(k, d) <= v * (k - 1) + 1 <= Power(k, d + 1) - (k - 1)
    decreases t.Unrotate(x)
  {
    var k, v := t.degree, t.Unrotate(x);
    RotateInverse(t, x);
    if x == t.root {
      assert Power(k, 1) == k * Power(k, 0) == k;
      assert v * (k - 1) == 0;
    } else {
      ParentIsCloser(t, x);
      var p := t.Parent(x);
      DepthExactly(t, p);
      DepthStep(k, t.Unrotate(p), v, Power(k, Depth(t, p)), Power(k, Depth(t, p) + 1));
    }
  }

  lemma DepthStep(k: int, u: int, v: int, low: int, high: int)
    requires k >= 1 && v >= 1 && u == (v - 1) / k
    requires low <= u * (k - 1) + 1 <= high - (k - 1)
    ensures k * low <= v * (k - 1) + 1 <= k * high - (k - 1)
  {
    DivBounds(v - 1, k);
    var m := v - (u * k + 1);
    assert 0 <= m <= k - 1;
    var w := u * (k - 1) + 1;
    Scale(low, w, k);
    Scale(w, high - (k - 1), k);
    calc {
      v * (k - 1) + 1;
      (u * k + 1 + m) * (k - 1) + 1;
      k * w + m * (k - 1);
    }
    Scale(0, m, k - 1);
    Scale(m, k - 1, k - 1);
    assert k * (high - (k - 1)) + (k - 1) * (k - 1) == k * high - (k - 1);
  }

  lemma Scale(a: int, b: int, k: int)
    requires a <= b && k >= 0
    ensures k * a <= k * b
  {
    if a < b { MulStep(a, b, k); }
  }

  /** Depth bound: k^d <= (ranks-1)*(k-1)+1.  With degree 2 this is 2^d <= ranks. */
  lemma DepthBound(t: Topology, x: int)
    requires t.Valid() && t.IsRank(x)
    ensures Power(t.degree, Depth(t, x)) <= (t.ranks - 1) * (t.degree - 1) + 1
    ensures t.degree == 2 ==> Power(2, Depth(t, x)) <= t.ranks
  {
    DepthExactly(t, x);
    RotateInverse(t, x);
    Scale(t.Unrotate(x), t.ranks - 1, t.degree - 1);
  }
}
