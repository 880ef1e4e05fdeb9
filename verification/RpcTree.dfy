/** metasim_rpc_tree_init and its twin tree_init: the imperative construction of
    one rank's view, in C integers and in place on the child array. */
module RpcTree {
  import opened Arith
  import opened Int32
  import opened KaryTree

  class Tree {
    var rank: int32
    var ranks: int32
    var parentRank: int32
    var childCount: int32
    var childRanks: array?<int32>

    constructor ()
      ensures childRanks == null
    {
      childRanks := null;
    }

    /** This object is the view of topology t that belongs to rank r. */
    ghost predicate IsView(t: Topology, r: int)
      reads this, childRanks
    {
      && t.Valid() && t.IsRank(r)
      && rank as int == r && ranks as int == t.ranks
      && parentRank as int == t.Parent(r)
      && childCount as int == |t.Children(r)|
      && childRanks != null && childRanks.Length == t.degree
      && childCount as int <= t.degree
      && (forall i | 0 <= i < childCount as int :: childRanks[i] as int == t.Children(r)[i])
      && (forall i | childCount as int <= i < t.degree :: childRanks[i] == -1)
    }

    /** Builds the view; `memory` says whether malloc delivers.  Without memory the
        object is left looking like a childless root. */
    method Init(rank0: int32, ranks0: int32, root: int32, k: int32, memory: bool) returns (ret: int32)
      requires 1 <= ranks0 && 0 <= rank0 < ranks0 && 0 <= root < ranks0 && 1 <= k
      requires k as int * ranks0 as int <= INT_MAX
      requires 2 * ranks0 as int - 2 <= INT_MAX
      modifies this
      ensures ret == if memory then 0 else ENOMEM
      ensures memory ==> fresh(childRanks)
                         && IsView(Topology(ranks0 as int, root as int, k as int), rank0 as int)
      ensures memory ==>
                var u, n, d := (rank0 as int - root as int) % ranks0 as int, ranks0 as int, k as int;
                && rank == rank0 && ranks == ranks0
                && parentRank as int == (if u == 0 then -1 else ((u - 1) / d + root as int) % n)
                && childCount as int == (if u * d + 1 >= n then 0 else if u * d + d >= n then n - 1 - u * d else d)
                && childRanks.Length == d
                && (forall i | 0 <= i < childCount as int ::
                      childRanks[i] as int == (u * d + 1 + i + root as int) % n)
                && (forall i | childCount as int <= i < d :: childRanks[i] == -1)
      ensures !memory ==> parentRank == -1 && childCount == 0 && childRanks == null && ranks == ranks0
                          && rank as int == Topology(ranks0 as int, root as int, k as int).Unrotate(rank0 as int)
    {
      ghost var t := Topology(ranks0 as int, root as int, k as int);
      var r := rank0 - root;
      if r < 0 {
        r := r + ranks0;
      }
      ghost var u := t.Unrotate(rank0 as int);
      RotateInverse(t, rank0 as int);

      rank, ranks, parentRank, childCount, childRanks := r, ranks0, -1, 0, null;

      if !memory {
        return ENOMEM;
      }
      var kids := new int32[k as int](_ => -1);
      childRanks := kids;

      parentRank := ParentInTree(r, ranks0, root, k, t, rank0 as int);
      childCount := ChildrenInTree(kids, r, ranks0, root, k, t, rank0 as int);
      rank := Unrotated(r, ranks0, root);
      ret := 0;
      ViewIsModular(t, rank0 as int);
    }
  }

  /** r + root, brought back below ranks. */
  method Unrotated(r: int32, ranks: int32, root: int32) returns (g: int32)
    requires 0 <= r < ranks && 0 <= root < ranks && 2 * ranks as int - 2 <= INT_MAX
    ensures g as int == Topology(ranks as int, root as int, 1).Rotate(r as int)
    ensures g as int == (r as int + root as int) % ranks as int
  {
    g := r + root;
    if g >= ranks {
      g := g - ranks;
    }
    RotationIsModular(Topology(ranks as int, root as int, 1), r as int);
  }

  method ParentInTree(r: int32, ranks: int32, root: int32, k: int32, ghost t: Topology, ghost g: int)
    returns (parent: int32)
    requires t == Topology(ranks as int, root as int, k as int) && t.Valid()
    requires t.IsRank(g) && r as int == t.Unrotate(g)
    requires 2 * ranks as int - 2 <= INT_MAX
    ensures parent as int == t.Parent(g)
  {
    parent := -1;
    if r > 0 {
      DivShrinks(r as int - 1, k as int);
      parent := (r - 1) / k;
    }
    if parent != -1 {
      parent := Unrotated(parent, ranks, root);
    }
  }

  /** The children of virtual rank r, in global ranks, written to the front of kids. */
  method ChildrenInTree(kids: array<int32>, r: int32, ranks: int32, root: int32, k: int32,
                        ghost t: Topology, ghost g: int)
    returns (count: int32)
    requires t == Topology(ranks as int, root as int, k as int) && t.Valid()
    requires t.IsRank(g) && r as int == t.Unrotate(g)
    requires k as int * ranks as int <= INT_MAX && 2 * ranks as int - 2 <= INT_MAX
    requires kids.Length == k as int
    modifies kids
    ensures count as int == |t.Children(g)| <= k as int
    ensures forall j | 0 <= j < count as int :: kids[j] as int == t.Children(g)[j]
    ensures forall j | count as int <= j < kids.Length :: kids[j] == old(kids[j])
  {
    var left;
    left, count := ChildRange(r, ranks, k, t, g);
    FillChildren(kids, count, left);
    RotateChildren(kids, count, ranks, root);
  }

  /** The leftmost child of virtual rank r and the number of its children. */
  method ChildRange(r: int32, ranks: int32, k: int32, ghost t: Topology, ghost g: int)
    returns (left: int32, count: int32)
    requires t.Valid() && t.ranks == ranks as int && t.degree == k as int
    requires t.IsRank(g) && r as int == t.Unrotate(g)
    requires k as int * ranks as int <= INT_MAX
    ensures count as int == |t.Children(g)| <= k as int
    ensures 0 < left as int && (count > 0 ==> left as int + count as int <= ranks as int)
    ensures forall j | 0 <= j < count as int :: t.Children(g)[j] == t.Rotate(left as int + j)
  {
    RotateInverse(t, g);
    LastSiblingFits(r as int, t);
    left := r * k + 1;
    var right := r * k + k;
    count := 0;
    if left < ranks {
      if right >= ranks {
        right := ranks - 1;
      }
      count := right - left + 1;
    }
  }

  /** Fill in the rank of each child, counting up from the leftmost one. */
  method FillChildren(kids: array<int32>, count: int32, left: int32)
    requires 0 <= count as int <= kids.Length && (count > 0 ==> Fits(left as int + count as int))
    modifies kids
    ensures forall j | 0 <= j < kids.Length ::
              kids[j] as int == if j < count as int then left as int + j else old(kids[j]) as int
  {
    var i: int32 := 0;
    while i < count
      invariant 0 <= i <= count
      invariant forall j | 0 <= j < kids.Length ::
                  kids[j] as int == if j < i as int then left as int + j else old(kids[j]) as int
    {
      kids[i as int] := left + i;
      i := i + 1;
    }
  }

  /** Rotate the rank of each child, in place. */
  method RotateChildren(kids: array<int32>, count: int32, ranks: int32, root: int32)
    requires 0 <= count as int <= kids.Length && 0 <= root < ranks && 2 * ranks as int - 2 <= INT_MAX
    requires forall j | 0 <= j < count as int :: 0 <= kids[j] < ranks
    modifies kids
    ensures forall j | 0 <= j < kids.Length ::
              kids[j] as int == if j < count as int
                                then Topology(ranks as int, root as int, 1).Rotate(old(kids[j]) as int)
                                else old(kids[j]) as int
    ensures forall j | 0 <= j < count as int :: kids[j] as int == (old(kids[j]) as int + root as int) % ranks as int
  {
    var i: int32 := 0;
    while i < count
      invariant 0 <= i <= count
      invariant forall j | 0 <= j < kids.Length ::
                  kids[j] as int == if j < i as int
                                    then Topology(ranks as int, root as int, 1).Rotate(old(kids[j]) as int)
                                    else old(kids[j]) as int
    {
      kids[i as int] := Unrotated(kids[i as int], ranks, root);
      i := i + 1;
    }
  }

  /** Every index computed for virtual rank u is at most ranks*k. */
  lemma LastSiblingFits(u: int, t: Topology)
    requires t.Valid() && t.IsRank(u)
    ensures 0 <= u * t.degree < u * t.degree + t.degree <= t.ranks * t.degree
  {
    MulStep(u, t.ranks, t.degree);
    if u > 0 { MulAtLeast(u, t.degree); }
  }

  /** Virtual rank v can be rotated back in C integers. */
  predicate RotationFits(t: Topology, v: int) {
    Fits(v) && Fits(v + t.root)
  }

  /** Every intermediate value the construction at rank r computes is representable. */
  predicate NodeFits(t: Topology, r: int)
    requires t.Valid() && t.IsRank(r)
  {
    var u, k := t.Unrotate(r), t.degree;
    && Fits(r - t.root) && RotationFits(t, u)
    && Fits(u * k + 1) && Fits(u * k + k)
    && (u > 0 ==> RotationFits(t, (u - 1) / k))
    && forall v | u * k + 1 <= v < u * k + 1 + t.VirtualCount(u) :: RotationFits(t, v)
  }

  predicate AllNodesFit(ranks: int, k: int)
    requires 1 <= ranks && 1 <= k
  {
    forall root, r | 0 <= root < ranks && 0 <= r < ranks :: NodeFits(Topology(ranks, root, k), r)
  }

  /** The construction stays inside C integers at every rank and for every root
      exactly when k*ranks and 2*ranks-2 are representable. */
  lemma IndicesFit(ranks: int, k: int)
    requires 1 <= ranks && 1 <= k
    ensures AllNodesFit(ranks, k) <==> k * ranks <= INT_MAX && 2 * ranks - 2 <= INT_MAX
  {
    if AllNodesFit(ranks, k) {
      assert NodeFits(Topology(ranks, 0, k), ranks - 1);
      assert (ranks - 1) * k + k == k * ranks;
      if ranks >= 2 {
        assert NodeFits(Topology(ranks, ranks - 1, k), ranks - 2);
      }
    }
    if k * ranks <= INT_MAX && 2 * ranks - 2 <= INT_MAX {
      forall root, r | 0 <= root < ranks && 0 <= r < ranks ensures NodeFits(Topology(ranks, root, k), r) {
        NodeStaysSmall(Topology(ranks, root, k), r);
      }
    }
  }

  lemma NodeStaysSmall(t: Topology, r: int)
    requires t.Valid() && t.IsRank(r)
    requires t.degree * t.ranks <= INT_MAX && 2 * t.ranks - 2 <= INT_MAX
    ensures NodeFits(t, r)
  {
    var u := t.Unrotate(r);
    RotateInverse(t, r);
    LastSiblingFits(u, t);
    if u > 0 { DivShrinks(u - 1, t.degree); }
    var left := u * t.degree + 1;
    assert t.VirtualCount(u) > 0 ==> left + t.VirtualCount(u) <= t.ranks;
  }
}
