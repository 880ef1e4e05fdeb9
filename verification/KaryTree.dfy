/** The rotated k-ary tree that every rank computes for itself.

    A rank first rotates the ranks so that the root becomes 0.  In those virtual
    ranks node u has the children u*k+1 .. u*k+k, cut off at the last rank; the
    results are rotated back.  This module says what each rank computes and
    proves that the separate local views describe one spanning tree. */
module KaryTree {
  import opened Arith

  datatype Topology = Topology(ranks: int, root: int, degree: int) {

    predicate Valid() {
      1 <= ranks && 0 <= root < ranks && 1 <= degree
    }

    predicate IsRank(r: int) {
      0 <= r < ranks
    }

    /** Distance from the root up to r, going round cyclically. */
    function Unrotate(r: int): int {
      if r - root < 0 then r - root + ranks else r - root
    }

    function Rotate(v: int): int {
      if v + root >= ranks then v + root - ranks else v + root
    }

    /** parent_rank as computed at rank r, -1 at the root. */
    function Parent(r: int): int
      requires Valid() && IsRank(r)
    {
      if Unrotate(r) > 0 then Rotate((Unrotate(r) - 1) / degree) else -1
    }

    /** Number of children of virtual rank u, the last sibling group being cut off. */
    function VirtualCount(u: int): nat
      requires Valid()
    {
      var left, right := u * degree + 1, u * degree + degree;
      if left < ranks then (if right >= ranks then ranks - 1 else right) - left + 1 else 0
    }

    /** child_ranks[..child_count] as computed at rank r. */
    function Children(r: int): (kids: seq<int>)
      requires Valid() && IsRank(r)
      ensures |kids| == VirtualCount(Unrotate(r))
    {
      seq(VirtualCount(Unrotate(r)), i => Rotate(Unrotate(r) * degree + 1 + i))
    }

    /** The position a non-root rank has in its parent's child list. */
    function Slot(c: int): int
      requires Valid() && IsRank(c)
    {
      (Unrotate(c) - 1) % degree
    }
  }

  /* ---------- one rank's view ---------- */

  lemma RotateInverse(t: Topology, r: int)
    requires t.Valid() && t.IsRank(r)
    ensures t.IsRank(t.Unrotate(r)) && t.Rotate(t.Unrotate(r)) == r
    ensures t.IsRank(t.Rotate(r)) && t.Unrotate(t.Rotate(r)) == r
    ensures t.Unrotate(r) == 0 <==> r == t.root
  {
  }

  /** Going round cyclically from the root is arithmetic modulo the number of ranks. */
  lemma RotationIsModular(t: Topology, r: int)
    requires t.Valid() && t.IsRank(r)
    ensures t.Unrotate(r) == (r - t.root) % t.ranks
    ensures t.Rotate(r) == (r + t.root) % t.ranks
  {
    if r - t.root < 0 {
      DivModOf(-1, r - t.root + t.ranks, t.ranks);
    } else {
      DivModOf(0, r - t.root, t.ranks);
    }
    if r + t.root >= t.ranks {
      DivModOf(1, r + t.root - t.ranks, t.ranks);
    } else {
      DivModOf(0, r + t.root, t.ranks);
    }
  }

  /** What rank r computes, as arithmetic on r, ranks, root and degree. */
  lemma ViewIsModular(t: Topology, r: int)
    requires t.Valid() && t.IsRank(r)
    ensures var u, k := (r - t.root) % t.ranks, t.degree;
            && t.Parent(r) == (if u == 0 then -1 else ((u - 1) / k + t.root) % t.ranks)
            && |t.Children(r)| == (if u * k + 1 >= t.ranks then 0
                                   else if u * k + k >= t.ranks then t.ranks - 1 - u * k else k)
            && forall i | 0 <= i < |t.Children(r)| :: t.Children(r)[i] == (u * k + 1 + i + t.root) % t.ranks
  {
    var u, k := t.Unrotate(r), t.degree;
    RotationIsModular(t, r);
    RotateInverse(t, r);
    if u > 0 {
      DivShrinks(u - 1, k);
      RotationIsModular(t, (u - 1) / k);
      MulAtLeast(k, u);
    } else {
      assert u * k == 0;
    }
    forall i | 0 <= i < |t.Children(r)| ensures t.Children(r)[i] == (u * k + 1 + i + t.root) % t.ranks {
      RotationIsModular(t, u * k + 1 + i);
    }
  }

  /** The parent of a non-root rank is a rank and lies closer to the root. */
  lemma ParentIsCloser(t: Topology, c: int)
    requires t.Valid() && t.IsRank(c) && c != t.root
    ensures t.IsRank(t.Parent(c))
    ensures 0 <= t.Unrotate(t.Parent(c)) == (t.Unrotate(c) - 1) / t.degree < t.Unrotate(c)
  {
    DivShrinks(t.Unrotate(c) - 1, t.degree);
    RotateInverse(t, (t.Unrotate(c) - 1) / t.degree);
  }

  /** Entry i of the child list computed at p: that rank computes p as its parent
      and i as its slot. */
  lemma ChildPointsBack(t: Topology, p: int, i: int)
    requires t.Valid() && t.IsRank(p) && 0 <= i < |t.Children(p)|
    ensures var c := t.Children(p)[i];
            t.IsRank(c) && c != t.root && t.Parent(c) == p && t.Slot(c) == i
  {
    var u, k := t.Unrotate(p), t.degree;
    var v := u * k + 1 + i;
    RotateInverse(t, p);
    if u > 0 { MulAtLeast(k, u); } else { assert u * k == 0; }
    assert 1 <= v < t.ranks && 0 <= i < k;
    RotateInverse(t, v);
    DivModOf(u, i, k);
  }

  /** A non-root rank stands at its slot in the list its parent computes. */
  lemma ParentLists(t: Topology, c: int)
    requires t.Valid() && t.IsRank(c) && c != t.root
    ensures t.IsRank(t.Parent(c))
    ensures 0 <= t.Slot(c) < |t.Children(t.Parent(c))|
    ensures t.Children(t.Parent(c))[t.Slot(c)] == c
  {
    ParentIsCloser(t, c);
    DivBounds(t.Unrotate(c) - 1, t.degree);
    RotateInverse(t, c);
  }
}
