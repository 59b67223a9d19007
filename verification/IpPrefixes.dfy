/** `IpPrefix` of the route compiler and its prefix arithmetic. */
module IpPrefixes {
  import opened Words

  datatype Family = V4 | V6

  function Width(family: Family): nat {
    if family.V4? then 32 else 128
  }

  /** Matching of one address against one prefix, by comparing leading bits. */
  ghost predicate Matches(p: IpPrefix, family: Family, address: Word)
    requires p.WellFormed() && |address| == Width(family)
  {
    p.family == family && address[..p.bits] == p.network[..p.bits]
  }

  datatype IpPrefix = IpPrefix(family: Family, network: Word, bits: nat) {

    /** Every prefix the parser builds: in range, with zero host bits. */
    ghost predicate WellFormed() {
      && |network| == Width(family)
      && bits <= Width(family)
      && forall i | bits <= i < |network| :: !network[i]
    }

    predicate Contains(other: IpPrefix)
      requires WellFormed() && other.WellFormed()
    {
      family == other.family && And(other.network, PrefixMask(Width(family), bits)) == network
    }

    function LeftChild(): IpPrefix
      requires WellFormed() && bits < Width(family)
    {
      IpPrefix(family, network, bits + 1)
    }

    function RightChild(): IpPrefix
      requires WellFormed() && bits < Width(family)
    {
      IpPrefix(family, Or(network, ShiftLeft(One(Width(family)), Width(family) - (bits + 1))), bits + 1)
    }

    /** The part of this prefix outside `exclusion`, as CIDR blocks. */
    function Subtract(exclusion: IpPrefix): (result: seq<IpPrefix>)
      requires WellFormed() && exclusion.WellFormed()
      ensures forall f | f in result :: f.WellFormed()
      decreases Width(family) - bits, 0
    {
      ContainsIsLeadingBits(this, exclusion);
      ContainsIsLeadingBits(exclusion, this);
      if family != exclusion.family then
        [this]
      else if exclusion.bits <= bits && exclusion.Contains(this) then
        []
      else if !Contains(exclusion) then
        [this]
      else
        ContainsShorter(this, exclusion);
        ChildrenBits(this);
        SubtractFromChild(LeftChild(), exclusion) + SubtractFromChild(RightChild(), exclusion)
    }

    /** One turn of the loop over the two children. */
    static function SubtractFromChild(child: IpPrefix, exclusion: IpPrefix): (result: seq<IpPrefix>)
      requires child.WellFormed() && exclusion.WellFormed()
      ensures forall f | f in result :: f.WellFormed()
      decreases Width(child.family) - child.bits, 1
    {
      if child.Contains(exclusion) then child.Subtract(exclusion) else [child]
    }
  }

  /** `Contains` compares under the mask of the containing prefix only. */
  lemma {:induction false} ContainsIsLeadingBits(a: IpPrefix, b: IpPrefix)
    requires a.WellFormed() && b.WellFormed()
    ensures a.Contains(b) <==> a.family == b.family && b.network[..a.bits] == a.network[..a.bits]
  {
    if a.family == b.family {
      var masked := And(b.network, PrefixMask(Width(a.family), a.bits));
      if b.network[..a.bits] == a.network[..a.bits] {
        forall i | 0 <= i < |masked| ensures masked[i] == a.network[i] {
          if i < a.bits {
            assert b.network[i] == b.network[..a.bits][i] == a.network[..a.bits][i];
          }
        }
        assert masked == a.network;
      }
      if masked == a.network {
        forall i | 0 <= i < a.bits ensures b.network[i] == a.network[i] {
          assert masked[i] == b.network[i];
        }
      }
    }
  }

  /** A prefix that contains one no longer than itself is contained in it. */
  lemma ContainsShorter(p: IpPrefix, e: IpPrefix)
    requires p.WellFormed() && e.WellFormed()
    ensures p.Contains(e) && e.bits <= p.bits ==> e.Contains(p)
  {
    ContainsIsLeadingBits(p, e);
    ContainsIsLeadingBits(e, p);
    if p.Contains(e) && e.bits <= p.bits {
      assert p.network[..e.bits] == p.network[..p.bits][..e.bits];
      assert e.network[..e.bits] == e.network[..p.bits][..e.bits];
    }
  }

  /** The children agree with the parent up to its length and differ in the next bit. */
  lemma ChildrenBits(p: IpPrefix)
    requires p.WellFormed() && p.bits < Width(p.family)
    ensures p.LeftChild().WellFormed() && p.RightChild().WellFormed()
    ensures p.LeftChild().network[..p.bits] == p.network[..p.bits] && !p.LeftChild().network[p.bits]
    ensures p.RightChild().network[..p.bits] == p.network[..p.bits] && p.RightChild().network[p.bits]
  {
    var w := Width(p.family);
    var bit := ShiftLeft(One(w), w - (p.bits + 1));
    forall i | 0 <= i < w ensures bit[i] == (i == p.bits) {
    }
    forall i | 0 <= i < w ensures p.RightChild().network[i] == (p.network[i] || i == p.bits) {
    }
  }

  /** Every address of `p` is an address of `e`. */
  ghost predicate Covers(e: IpPrefix, p: IpPrefix)
    requires e.WellFormed() && p.WellFormed()
  {
    e.family == p.family && e.bits <= p.bits && p.network[..e.bits] == e.network[..e.bits]
  }

  ghost predicate Disjoint(a: IpPrefix, b: IpPrefix)
    requires a.WellFormed() && b.WellFormed()
  {
    !Covers(a, b) && !Covers(b, a)
  }

  lemma CoversMatches(e: IpPrefix, p: IpPrefix, address: Word)
    requires e.WellFormed() && p.WellFormed() && |address| == Width(p.family)
    requires Covers(e, p) && Matches(p, p.family, address)
    ensures Matches(e, p.family, address)
  {
    assert address[..e.bits] == address[..p.bits][..e.bits];
    assert p.network[..e.bits] == p.network[..p.bits][..e.bits];
  }

  lemma DisjointMatches(a: IpPrefix, b: IpPrefix, family: Family, address: Word)
    requires a.WellFormed() && b.WellFormed() && |address| == Width(family)
    requires Matches(a, family, address) && Matches(b, family, address)
    ensures !Disjoint(a, b)
    ensures a.bits <= b.bits ==> Covers(a, b)
  {
    if a.bits <= b.bits {
      assert b.network[..a.bits] == b.network[..b.bits][..a.bits] == address[..b.bits][..a.bits] == address[..a.bits];
    } else {
      assert a.network[..b.bits] == a.network[..a.bits][..b.bits] == address[..a.bits][..b.bits] == address[..b.bits];
    }
  }

  lemma SameLength(p: IpPrefix, e: IpPrefix)
    requires p.WellFormed() && e.WellFormed()
    ensures p.bits == e.bits && Covers(p, e) ==> p == e
  {
    if p.bits == e.bits && Covers(p, e) {
      assert forall i | 0 <= i < p.bits :: e.network[i] == e.network[..p.bits][i];
      assert forall i | 0 <= i < p.bits :: p.network[i] == p.network[..p.bits][i];
      assert p.network == e.network;
    }
  }

  lemma CoversTransitive(a: IpPrefix, b: IpPrefix, c: IpPrefix)
    requires a.WellFormed() && b.WellFormed() && c.WellFormed()
    requires Covers(a, b) && Covers(b, c)
    ensures Covers(a, c)
  {
    assert c.network[..a.bits] == c.network[..b.bits][..a.bits];
    assert b.network[..a.bits] == b.network[..b.bits][..a.bits];
  }

  /** Two prefixes over a third are comparable. */
  lemma CoversLinear(a: IpPrefix, b: IpPrefix, c: IpPrefix)
    requires a.WellFormed() && b.WellFormed() && c.WellFormed()
    requires Covers(a, c) && Covers(b, c) && a.bits <= b.bits
    ensures Covers(a, b)
  {
    assert c.network[..a.bits] == c.network[..b.bits][..a.bits];
    assert b.network[..a.bits] == b.network[..b.bits][..a.bits];
  }

  /** A prefix strictly inside `p` lies in exactly one child. */
  lemma ChildOf(p: IpPrefix, e: IpPrefix)
    requires p.WellFormed() && e.WellFormed() && Covers(p, e) && p.bits < e.bits
    ensures p.LeftChild().WellFormed() && p.RightChild().WellFormed()
    ensures Covers(p, p.LeftChild()) && Covers(p, p.RightChild())
    ensures !e.network[p.bits] ==> Covers(p.LeftChild(), e) && Disjoint(p.RightChild(), e)
    ensures e.network[p.bits] ==> Covers(p.RightChild(), e) && Disjoint(p.LeftChild(), e)
  {
    ChildrenBits(p);
    var l, r := p.LeftChild(), p.RightChild();
    var n := p.bits + 1;
    assert e.network[..n] == e.network[..p.bits] + [e.network[p.bits]];
    assert l.network[..n] == l.network[..p.bits] + [l.network[p.bits]];
    assert r.network[..n] == r.network[..p.bits] + [r.network[p.bits]];
    if Covers(e, l) || Covers(e, r) {
      assert e.bits == n;
    }
  }

  /** The two children hold the addresses of `p`, the left ones below the right ones. */
  lemma {:induction false} ChildrenSplit(p: IpPrefix, address: Word)
    requires p.WellFormed() && p.bits < Width(p.family) && |address| == Width(p.family)
    ensures p.LeftChild().WellFormed() && p.RightChild().WellFormed()
    ensures Matches(p.LeftChild(), p.family, address) <==> Matches(p, p.family, address) && !address[p.bits]
    ensures Matches(p.RightChild(), p.family, address) <==> Matches(p, p.family, address) && address[p.bits]
  {
    ChildrenBits(p);
    var l, r := p.LeftChild(), p.RightChild();
    var n := p.bits + 1;
    assert address[..n] == address[..p.bits] + [address[p.bits]];
    assert l.network[..n] == l.network[..p.bits] + [l.network[p.bits]];
    assert r.network[..n] == r.network[..p.bits] + [r.network[p.bits]];
    if Matches(l, p.family, address) {
      assert address[..p.bits] == address[..n][..p.bits];
      assert address[p.bits] == address[..n][p.bits];
    }
    if Matches(r, p.family, address) {
      assert address[..p.bits] == address[..n][..p.bits];
      assert address[p.bits] == address[..n][p.bits];
    }
  }

  /** Every prefix holds at least its own network address. */
  lemma NetworkMatches(p: IpPrefix)
    requires p.WellFormed()
    ensures Matches(p, p.family, p.network)
  {
  }

  /** `Subtract` decides by masks; in terms of coverage it keeps, drops or splits. */
  lemma SubtractCases(p: IpPrefix, e: IpPrefix)
    requires p.WellFormed() && e.WellFormed()
    ensures Covers(e, p) ==> p.Subtract(e) == []
    ensures Disjoint(e, p) ==> p.Subtract(e) == [p]
    ensures Covers(p, e) && !Covers(e, p) ==>
              && p.bits < e.bits
              && p.LeftChild().WellFormed() && p.RightChild().WellFormed()
              && p.Subtract(e) == p.LeftChild().Subtract(e) + p.RightChild().Subtract(e)
  {
    ContainsIsLeadingBits(p, e);
    ContainsIsLeadingBits(e, p);
    if Covers(p, e) && !Covers(e, p) {
      if p.bits == e.bits {
        assert Covers(e, p);
      }
      ChildOf(p, e);
      var l, r := p.LeftChild(), p.RightChild();
      ContainsIsLeadingBits(l, e);
      ContainsIsLeadingBits(r, e);
      ContainsIsLeadingBits(e, l);
      ContainsIsLeadingBits(e, r);
    }
    ContainsShorter(p, e);
  }

  /** The split as a loop over the two children that grows a result vector. */
  method SubtractLoop(self: IpPrefix, exclusion: IpPrefix) returns (result: seq<IpPrefix>)
    requires self.WellFormed() && exclusion.WellFormed()
    ensures result == self.Subtract(exclusion)
    decreases Width(self.family) - self.bits
  {
    ContainsIsLeadingBits(self, exclusion);
    ContainsIsLeadingBits(exclusion, self);
    if self.family != exclusion.family {
      return [self];
    }
    if exclusion.bits <= self.bits && exclusion.Contains(self) {
      return [];
    }
    if !self.Contains(exclusion) {
      return [self];
    }
    ContainsShorter(self, exclusion);
    ChildrenBits(self);
    var children := [self.LeftChild(), self.RightChild()];
    result := [];
    for i := 0 to 2
      invariant i == 0 ==> result == []
      invariant i == 1 ==> result == IpPrefix.SubtractFromChild(children[0], exclusion)
      invariant i == 2 ==> result == IpPrefix.SubtractFromChild(children[0], exclusion)
                                   + IpPrefix.SubtractFromChild(children[1], exclusion)
    {
      if children[i].Contains(exclusion) {
        var parts := SubtractLoop(children[i], exclusion);
        result := result + parts;
      } else {
        result := result + [children[i]];
      }
    }
  }
}
