/** What is left of one include route after its applicable excludes have been
    subtracted one after another, and the order-free description of that list. */
module RouteFragments {
  import opened Words
  import opened IpPrefixes

  ghost predicate AllWellFormed(s: seq<IpPrefix>) {
    forall p | p in s :: p.WellFormed()
  }

  ghost predicate SetWellFormed(s: set<IpPrefix>) {
    forall p | p in s :: p.WellFormed()
  }

  /** `fragments.flat_map(|fragment| fragment.subtract(exclusion))`. */
  function SubtractAll(fragments: seq<IpPrefix>, exclusion: IpPrefix): (result: seq<IpPrefix>)
    requires AllWellFormed(fragments) && exclusion.WellFormed()
    ensures AllWellFormed(result)
  {
    if fragments == [] then []
    else fragments[0].Subtract(exclusion) + SubtractAll(fragments[1..], exclusion)
  }

  /** Subtract every exclusion in list order. */
  function Carve(fragments: seq<IpPrefix>, exclusions: seq<IpPrefix>): (result: seq<IpPrefix>)
    requires AllWellFormed(fragments) && AllWellFormed(exclusions)
    ensures AllWellFormed(result)
    decreases |exclusions|
  {
    if exclusions == [] then fragments
    else Carve(SubtractAll(fragments, exclusions[0]), exclusions[1..])
  }

  ghost predicate SomeCovers(avoid: set<IpPrefix>, p: IpPrefix)
    requires SetWellFormed(avoid) && p.WellFormed()
  {
    exists e | e in avoid :: Covers(e, p)
  }

  ghost predicate AllDisjoint(avoid: set<IpPrefix>, p: IpPrefix)
    requires SetWellFormed(avoid) && p.WellFormed()
  {
    forall e | e in avoid :: Disjoint(e, p)
  }

  /** The blocks of the binary prefix tree under `p` that avoid a SET of
      prefixes: whole subtrees where possible, split where one reaches inside. */
  ghost function Blocks(p: IpPrefix, avoid: set<IpPrefix>): (blocks: seq<IpPrefix>)
    requires p.WellFormed() && SetWellFormed(avoid)
    ensures AllWellFormed(blocks)
    decreases Width(p.family) - p.bits
  {
    if SomeCovers(avoid, p) then []
    else if AllDisjoint(avoid, p) then [p]
    else
      SplitPossible(p, avoid);
      ChildrenBits(p);
      Blocks(p.LeftChild(), avoid) + Blocks(p.RightChild(), avoid)
  }

  lemma SplitPossible(p: IpPrefix, avoid: set<IpPrefix>)
    requires p.WellFormed() && SetWellFormed(avoid)
    requires !SomeCovers(avoid, p) && !AllDisjoint(avoid, p)
    ensures p.bits < Width(p.family)
  {
    var e :| e in avoid && !Disjoint(e, p);
    SameLength(p, e);
  }

  // ---- the fold computes the order-free description ----

  lemma SubtractAllConcat(a: seq<IpPrefix>, b: seq<IpPrefix>, e: IpPrefix)
    requires AllWellFormed(a) && AllWellFormed(b) && e.WellFormed()
    ensures AllWellFormed(a + b)
    ensures SubtractAll(a + b, e) == SubtractAll(a, e) + SubtractAll(b, e)
  {
    if a == [] {
      assert a + b == b;
    } else {
      assert (a + b)[0] == a[0] && (a + b)[1..] == a[1..] + b;
      SubtractAllConcat(a[1..], b, e);
    }
  }

  lemma BlocksInside(p: IpPrefix, avoid: set<IpPrefix>)
    requires p.WellFormed() && SetWellFormed(avoid)
    ensures forall b | b in Blocks(p, avoid) :: Covers(p, b) && AllDisjoint(avoid, b)
    decreases Width(p.family) - p.bits
  {
    if !SomeCovers(avoid, p) && !AllDisjoint(avoid, p) {
      SplitPossible(p, avoid);
      ChildrenBits(p);
      var l, r := p.LeftChild(), p.RightChild();
      BlocksInside(l, avoid);
      BlocksInside(r, avoid);
      forall b | b in Blocks(p, avoid) ensures Covers(p, b) {
        if b in Blocks(l, avoid) {
          CoversTransitive(p, l, b);
        } else {
          CoversTransitive(p, r, b);
        }
      }
    }
  }

  lemma SubtractAllCovered(fragments: seq<IpPrefix>, e: IpPrefix)
    requires AllWellFormed(fragments) && e.WellFormed()
    requires forall f | f in fragments :: Covers(e, f)
    ensures SubtractAll(fragments, e) == []
  {
    if fragments != [] {
      SubtractCases(fragments[0], e);
      SubtractAllCovered(fragments[1..], e);
    }
  }

  lemma SubtractAllOne(p: IpPrefix, e: IpPrefix)
    requires p.WellFormed() && e.WellFormed()
    ensures SubtractAll([p], e) == p.Subtract(e)
  {
    assert SubtractAll([p], e) == p.Subtract(e) + SubtractAll([], e);
  }

  lemma SubtractIsBlocks(p: IpPrefix, e: IpPrefix)
    requires p.WellFormed() && e.WellFormed()
    ensures p.Subtract(e) == Blocks(p, {e})
    decreases Width(p.family) - p.bits
  {
    SubtractCases(p, e);
    if Covers(e, p) {
      assert SomeCovers({e}, p);
    } else if Disjoint(e, p) {
      assert AllDisjoint({e}, p);
    } else {
      assert !AllDisjoint({e}, p) by {
        assert e in {e};
      }
      SubtractIsBlocks(p.LeftChild(), e);
      SubtractIsBlocks(p.RightChild(), e);
    }
  }

  lemma {:induction false} BlocksIrrelevant(p: IpPrefix, avoid: set<IpPrefix>, e: IpPrefix)
    requires p.WellFormed() && SetWellFormed(avoid) && e.WellFormed()
    requires Disjoint(e, p)
    ensures Blocks(p, avoid + {e}) == Blocks(p, avoid)
    decreases Width(p.family) - p.bits
  {
    var more := avoid + {e};
    assert SomeCovers(more, p) <==> SomeCovers(avoid, p);
    assert AllDisjoint(more, p) <==> AllDisjoint(avoid, p);
    if !SomeCovers(avoid, p) && !AllDisjoint(avoid, p) {
      SplitPossible(p, avoid);
      ChildrenBits(p);
      DisjointFromPart(e, p, p.LeftChild());
      DisjointFromPart(e, p, p.RightChild());
      BlocksIrrelevant(p.LeftChild(), avoid, e);
      BlocksIrrelevant(p.RightChild(), avoid, e);
    }
  }

  lemma DisjointFromPart(e: IpPrefix, p: IpPrefix, part: IpPrefix)
    requires e.WellFormed() && p.WellFormed() && part.WellFormed()
    requires Disjoint(e, p) && Covers(p, part)
    ensures Disjoint(e, part)
  {
    if Covers(part, e) {
      CoversTransitive(p, part, e);
    } else if Covers(e, part) {
      if e.bits <= p.bits {
        CoversLinear(e, p, part);
      } else {
        CoversLinear(p, e, part);
      }
    }
  }

  /** Inserting one more exclusion into the tree is subtracting it from every block. */
  lemma {:induction false} BlocksInsert(p: IpPrefix, avoid: set<IpPrefix>, e: IpPrefix)
    requires p.WellFormed() && SetWellFormed(avoid) && e.WellFormed()
    ensures SubtractAll(Blocks(p, avoid), e) == Blocks(p, avoid + {e})
    decreases Width(p.family) - p.bits
  {
    var more := avoid + {e};
    if SomeCovers(avoid, p) {
      var c :| c in avoid && Covers(c, p);
      assert c in more && SomeCovers(more, p);
    } else if Covers(e, p) {
      assert e in more && SomeCovers(more, p);
      BlocksInside(p, avoid);
      forall f | f in Blocks(p, avoid) ensures Covers(e, f) {
        CoversTransitive(e, p, f);
      }
      SubtractAllCovered(Blocks(p, avoid), e);
    } else if AllDisjoint(avoid, p) {
      SubtractAllOne(p, e);
      SubtractIsBlocks(p, e);
      BlocksOnlyOne(p, avoid, e);
    } else {
      SplitPossible(p, avoid);
      ChildrenBits(p);
      var l, r := p.LeftChild(), p.RightChild();
      assert !AllDisjoint(more, p) by {
        var c :| c in avoid && !Disjoint(c, p);
        assert c in more;
      }
      assert !SomeCovers(more, p);
      BlocksInsert(l, avoid, e);
      BlocksInsert(r, avoid, e);
      SubtractAllConcat(Blocks(l, avoid), Blocks(r, avoid), e);
    }
  }

  /** Exclusions that do not touch `p` do not matter. */
  lemma {:induction false} BlocksOnlyOne(p: IpPrefix, avoid: set<IpPrefix>, e: IpPrefix)
    requires p.WellFormed() && SetWellFormed(avoid) && e.WellFormed()
    requires AllDisjoint(avoid, p)
    ensures Blocks(p, avoid + {e}) == Blocks(p, {e})
    decreases Width(p.family) - p.bits
  {
    var more := avoid + {e};
    assert e in {e} && e in more;
    assert SomeCovers(more, p) <==> SomeCovers({e}, p);
    assert AllDisjoint(more, p) <==> AllDisjoint({e}, p);
    if !SomeCovers(more, p) && !AllDisjoint(more, p) {
      SplitPossible(p, more);
      ChildrenBits(p);
      var l, r := p.LeftChild(), p.RightChild();
      forall a | a in avoid ensures Disjoint(a, l) && Disjoint(a, r) {
        DisjointFromPart(a, p, l);
        DisjointFromPart(a, p, r);
      }
      BlocksOnlyOne(l, avoid, e);
      BlocksOnlyOne(r, avoid, e);
    }
  }

  lemma {:induction false} CarveBlocks(p: IpPrefix, avoid: set<IpPrefix>, exclusions: seq<IpPrefix>)
    requires p.WellFormed() && SetWellFormed(avoid) && AllWellFormed(exclusions)
    ensures Carve(Blocks(p, avoid), exclusions) == Blocks(p, avoid + set e | e in exclusions)
    decreases |exclusions|
  {
    if exclusions == [] {
      assert avoid + (set e | e in exclusions) == avoid;
    } else {
      BlocksInsert(p, avoid, exclusions[0]);
      CarveBlocks(p, avoid + {exclusions[0]}, exclusions[1..]);
      assert (avoid + {exclusions[0]}) + (set e | e in exclusions[1..]) == avoid + set e | e in exclusions;
    }
  }

  /** Subtracting a list of exclusions in any order, with any repetition, gives
      the blocks of the tree that avoid the set of them. */
  lemma CarveIsBlocks(p: IpPrefix, exclusions: seq<IpPrefix>)
    requires p.WellFormed() && AllWellFormed(exclusions)
    ensures Carve([p], exclusions) == Blocks(p, set e | e in exclusions)
  {
    assert Blocks(p, {}) == [p] by {
      assert AllDisjoint({}, p);
    }
    CarveBlocks(p, {}, exclusions);
    assert {} + (set e | e in exclusions) == set e | e in exclusions;
  }

  // ---- what the blocks are ----

  ghost predicate Excluded(avoid: set<IpPrefix>, family: Family, address: Word)
    requires SetWellFormed(avoid) && |address| == Width(family)
  {
    exists e | e in avoid :: Matches(e, family, address)
  }

  ghost predicate Routed(routes: seq<IpPrefix>, family: Family, address: Word)
    requires AllWellFormed(routes) && |address| == Width(family)
  {
    exists r | r in routes :: Matches(r, family, address)
  }

  /** An address is in some block iff it is in `p` and in no avoided prefix. */
  lemma {:induction false} BlocksExact(p: IpPrefix, avoid: set<IpPrefix>, address: Word)
    requires p.WellFormed() && SetWellFormed(avoid) && |address| == Width(p.family)
    ensures Routed(Blocks(p, avoid), p.family, address)
       <==> Matches(p, p.family, address) && !Excluded(avoid, p.family, address)
    decreases Width(p.family) - p.bits
  {
    if SomeCovers(avoid, p) {
      var e :| e in avoid && Covers(e, p);
      if Matches(p, p.family, address) {
        CoversMatches(e, p, address);
      }
    } else if AllDisjoint(avoid, p) {
      if Matches(p, p.family, address) && Excluded(avoid, p.family, address) {
        var e :| e in avoid && Matches(e, p.family, address);
        DisjointMatches(e, p, p.family, address);
      }
      assert p in Blocks(p, avoid);
    } else {
      SplitPossible(p, avoid);
      ChildrenBits(p);
      ChildrenSplit(p, address);
      var l, r := p.LeftChild(), p.RightChild();
      BlocksExact(l, avoid, address);
      BlocksExact(r, avoid, address);
      assert Routed(Blocks(p, avoid), p.family, address)
        <==> Routed(Blocks(l, avoid), p.family, address) || Routed(Blocks(r, avoid), p.family, address);
    }
  }

  /** Every CIDR block inside `p` that avoids the set lies within one of the
      blocks: together with `BlocksInside`, they are the maximal such blocks. */
  lemma {:induction false} BlocksMaximal(p: IpPrefix, avoid: set<IpPrefix>, q: IpPrefix)
    requires p.WellFormed() && SetWellFormed(avoid) && q.WellFormed()
    requires Covers(p, q) && AllDisjoint(avoid, q)
    ensures exists b | b in Blocks(p, avoid) :: Covers(b, q)
    decreases Width(p.family) - p.bits
  {
    if SomeCovers(avoid, p) {
      var e :| e in avoid && Covers(e, p);
      CoversTransitive(e, p, q);
      assert false;
    } else if AllDisjoint(avoid, p) {
      assert p in Blocks(p, avoid);
    } else {
      SplitPossible(p, avoid);
      SameLength(p, q);
      ChildOf(p, q);
      if q.network[p.bits] {
        BlocksMaximal(p.RightChild(), avoid, q);
      } else {
        BlocksMaximal(p.LeftChild(), avoid, q);
      }
    }
  }

  /** All addresses of `a` are numerically below those of `b`. */
  ghost predicate Below(a: IpPrefix, b: IpPrefix, family: Family)
    requires a.WellFormed() && b.WellFormed()
  {
    forall x: Word, y: Word |
      |x| == |y| == Width(family) && Matches(a, family, x) && Matches(b, family, y) :: Less(x, y)
  }

  ghost predicate Ascending(blocks: seq<IpPrefix>, family: Family)
    requires AllWellFormed(blocks)
  {
    forall i, j | 0 <= i < j < |blocks| :: Below(blocks[i], blocks[j], family)
  }

  lemma ChildrenBelow(p: IpPrefix, a: IpPrefix, b: IpPrefix)
    requires p.WellFormed() && p.bits < Width(p.family) && a.WellFormed() && b.WellFormed()
    requires p.LeftChild().WellFormed() && p.RightChild().WellFormed()
    requires Covers(p.LeftChild(), a) && Covers(p.RightChild(), b)
    ensures Below(a, b, p.family)
  {
    forall x: Word, y: Word |
      |x| == |y| == Width(p.family) && Matches(a, p.family, x) && Matches(b, p.family, y)
      ensures Less(x, y)
    {
      CoversMatches(p.LeftChild(), a, x);
      CoversMatches(p.RightChild(), b, y);
      ChildrenSplit(p, x);
      ChildrenSplit(p, y);
      assert DiffersFirstAt(x, y, p.bits);
    }
  }

  lemma {:induction false} BlocksAscending(p: IpPrefix, avoid: set<IpPrefix>)
    requires p.WellFormed() && SetWellFormed(avoid)
    ensures Ascending(Blocks(p, avoid), p.family)
    decreases Width(p.family) - p.bits
  {
    hide Covers, Disjoint, Below, Matches;
    if !SomeCovers(avoid, p) && !AllDisjoint(avoid, p) {
      SplitPossible(p, avoid);
      ChildrenBits(p);
      var l, r := p.LeftChild(), p.RightChild();
      BlocksAscending(l, avoid);
      BlocksAscending(r, avoid);
      BlocksInside(l, avoid);
      BlocksInside(r, avoid);
      var bl, br, all := Blocks(l, avoid), Blocks(r, avoid), Blocks(p, avoid);
      assert all == bl + br;
      forall i, j | 0 <= i < j < |all| ensures Below(all[i], all[j], p.family) {
        if j < |bl| {
          assert all[i] == bl[i] && all[j] == bl[j];
        } else if |bl| <= i {
          assert all[i] == br[i - |bl|] && all[j] == br[j - |bl|];
        } else {
          ChildrenBelow(p, bl[i], br[j - |bl|]);
        }
      }
    }
  }

  // ---- how many there are ----

  lemma {:induction false} OneExclusionGrowth(p: IpPrefix, e: IpPrefix)
    requires p.WellFormed() && e.WellFormed()
    ensures |Blocks(p, {e})| <= 1 + (Width(p.family) - p.bits)
    ensures !Disjoint(e, p) ==> |Blocks(p, {e})| <= Width(p.family) - p.bits
    decreases Width(p.family) - p.bits
  {
    assert e in {e};
    if !SomeCovers({e}, p) && !AllDisjoint({e}, p) {
      SplitPossible(p, {e});
      var l, r := p.LeftChild(), p.RightChild();
      SameLength(p, e);
      ChildOf(p, e);
      OneExclusionGrowth(l, e);
      OneExclusionGrowth(r, e);
      var far := if e.network[p.bits] then l else r;
      assert AllDisjoint({e}, far);
      assert |Blocks(far, {e})| == 1;
    }
  }

  lemma {:induction false} BlocksGrowth(p: IpPrefix, avoid: set<IpPrefix>, e: IpPrefix)
    requires p.WellFormed() && SetWellFormed(avoid) && e.WellFormed()
    ensures |Blocks(p, avoid + {e})| <= |Blocks(p, avoid)| + (if p.bits < Width(p.family) then Width(p.family) - p.bits - 1 else 0)
    decreases Width(p.family) - p.bits
  {
    var more := avoid + {e};
    if SomeCovers(avoid, p) {
      var c :| c in avoid && Covers(c, p);
      assert c in more && SomeCovers(more, p);
    } else if Covers(e, p) {
      assert e in more && SomeCovers(more, p);
    } else if Disjoint(e, p) {
      BlocksIrrelevant(p, avoid, e);
    } else if AllDisjoint(avoid, p) {
      BlocksOnlyOne(p, avoid, e);
      OneExclusionGrowth(p, e);
      assert p.bits != e.bits;
    } else {
      SplitPossible(p, avoid);
      assert !AllDisjoint(more, p) by {
        var c :| c in avoid && !Disjoint(c, p);
        assert c in more;
      }
      assert !SomeCovers(more, p);
      assert p.bits < e.bits;
      ChildOf(p, e);
      BlocksGrowth(p.LeftChild(), avoid, e);
      BlocksGrowth(p.RightChild(), avoid, e);
      BlocksIrrelevant(if e.network[p.bits] then p.LeftChild() else p.RightChild(), avoid, e);
    }
  }

  /** At most one fragment to start with and `width - 1` more per exclusion. */
  lemma {:induction false} BlocksBound(p: IpPrefix, avoid: set<IpPrefix>)
    requires p.WellFormed() && SetWellFormed(avoid)
    ensures |Blocks(p, avoid)| <= 1 + (Width(p.family) - 1) * |avoid|
    decreases |avoid|
  {
    if avoid == {} {
      assert AllDisjoint(avoid, p);
    } else {
      var e :| e in avoid;
      var fewer := avoid - {e};
      BlocksBound(p, fewer);
      BlocksGrowth(p, fewer, e);
      assert fewer + {e} == avoid && |avoid| == |fewer| + 1;
      if p.family.V4? {
        assert |Blocks(p, avoid)| <= 1 + 31 * |fewer| + 31;
      } else {
        assert |Blocks(p, avoid)| <= 1 + 127 * |fewer| + 127;
      }
    }
  }
}
