/** What a route typed as text denotes: the address and the prefix length that were
    typed, whether the host is complete, abbreviated or bare. */
module TypedRoutes {
  import opened Lists
  import opened Strings
  import opened Words
  import opened IpPrefixes
  import opened CidrText

  // ---- words give back the octets they were made of ----

  lemma {:induction false} ValueOfBits(n: nat, k: nat)
    requires n < Pow2(k)
    ensures Value(Bits(n, k)) == n
  {
    if k > 0 {
      ValueOfBits(n / 2, k - 1);
      assert Bits(n, k)[..k - 1] == Bits(n / 2, k - 1);
    }
  }

  lemma OctetsOfWord(o: seq<nat>)
    requires Octets(o)
    ensures OctetsOf(WordOf(o)) == o
  {
    Pow2Of8();
    forall i | 0 <= i < 4 ensures Value(Bits(o[i], 8)) == o[i] {
      ValueOfBits(o[i], 8);
    }
    hide Bits, Value, Pow2;
    var w := WordOf(o);
    assert w[0..8] == Bits(o[0], 8) && w[8..16] == Bits(o[1], 8) && w[16..24] == Bits(o[2], 8) && w[24..32] == Bits(o[3], 8);
    assert o == [o[0], o[1], o[2], o[3]];
  }

  // ---- bare addresses ----

  /** A bare address becomes that very address with the host length. */
  lemma BareAddress(o: seq<nat>)
    requires Octets(o)
    ensures NormalizeRouteCidr(PrintOctets(o)) == Four(PrintOctets(o) + ['/', '3', '2'])
    ensures ParsePrefix(PrintOctets(o) + ['/', '3', '2']) == Some(IpPrefix(V4, WordOf(o), 32))
  {
    hide PrintOctets, Split, StrictOctet, IsSpace, OctetsOf, WordOf;
    PrintedOctets(o);
    OctetsParseStrictly(o);
    OctetsOfWord(o);
    TrimOfTight(PrintOctets(o));
    assert Decimal(32) == ['3', '2'];
    assert PrintV4(WordOf(o), 32) == PrintOctets(o) + ['/', '3', '2'];
    PrintedIsFixedPoint(IpPrefix(V4, WordOf(o), 32));
  }

  // ---- hosts with a length ----

  /** A host that reads as four octets, with a length, becomes the prefix of that length
      that holds the address; a length over 32 is refused. */
  lemma HostWithLength(host: string, o: seq<nat>, bits: nat)
    requires Tight(host) && HostOctets(host) == Some(o) && bits <= 255
    ensures bits <= 32 ==>
      exists p: IpPrefix :: && p.WellFormed() && p.family == V4 && p.bits == bits && Matches(p, V4, WordOf(o))
                            && NormalizeRouteCidr(host + ['/'] + Decimal(bits)) == Four(PrintV4(p.network, bits))
                            && ParsePrefix(PrintV4(p.network, bits)) == Some(p)
    ensures bits > 32 ==> NormalizeRouteCidr(host + ['/'] + Decimal(bits)) == Refused
  {
    hide Decimal, Trim, TrimStart, SplitOnce, HostOctets, WordOf, PrintV4, IsSpace, StrictOctet, ParsePrefix, NormalizeRouteCidr;
    DecimalIsPlain(bits);
    DecimalParses(bits);
    NormalizeAt(host, Decimal(bits));
    assert TrimStart(host) == host by { TrimStartOfTight(host); }
    TrimOfTight(host);
    TrimOfTight(Decimal(bits));
    if bits <= 32 {
      var p := IpPrefix(V4, Masked(WordOf(o), bits), bits);
      PrintedIsFixedPoint(p);
      assert p.network[..bits] == WordOf(o)[..bits];
      assert Matches(p, V4, WordOf(o));
    }
  }

  lemma TrimStartOfTight(s: string)
    requires s != [] && !IsSpace(s[0])
    ensures TrimStart(s) == s
  {
  }

  // ---- abbreviated hosts ----

  /** Missing octets at the end are zero; a fifth octet is refused. */
  lemma AbbreviatedHost(a: nat, b: nat, c: nat, d: nat, e: nat)
    requires a <= 255 && b <= 255 && c <= 255 && d <= 255 && e <= 255
    ensures var one := Decimal(a);
      var two := Decimal(a) + ['.'] + Decimal(b);
      var three := Decimal(a) + ['.'] + (Decimal(b) + ['.'] + Decimal(c));
      var four := PrintOctets([a, b, c, d]);
      var five := Decimal(e) + ['.'] + PrintOctets([a, b, c, d]);
      && HostOctets(one) == Some([a, 0, 0, 0]) && HostOctets(two) == Some([a, b, 0, 0])
      && HostOctets(three) == Some([a, b, c, 0]) && HostOctets(four) == Some([a, b, c, d])
      && HostOctets(five) == None
      && Tight(one) && Tight(two) && Tight(three) && Tight(four)
  {
    hide Decimal, Split, IsSpace, StrictOctet, ParseU8, ParseOctets, PrintOctets, Tight;
    Plain(a);
    Plain(b);
    Plain(c);
    Plain(e);
    var x, y, z := Decimal(a), Decimal(b), Decimal(c);
    UnsplitPlain(x);
    UnsplitPlain(y);
    UnsplitPlain(z);
    SplitTail(x, y, [y]);
    SplitTail(y, z, [z]);
    SplitTail(x, y + ['.'] + z, [y] + [z]);
    PrintedOctets([a, b, c, d]);
    SplitTail(Decimal(e), PrintOctets([a, b, c, d]), [x, y, z, Decimal(d)]);
    TightJoin(x, y);
    TightJoin(y, z);
    TightJoin(x, y + ['.'] + z);
    ReadsOctets([x], [a]);
    ReadsOctets([x, y], [a, b]);
    ReadsOctets([x, y, z], [a, b, c]);
    ReadsOctets([x, y, z, Decimal(d)], [a, b, c, d]);
    ReadsOctets([Decimal(e), x, y, z, Decimal(d)], [e, a, b, c, d]);
    assert [x] + [y] == [x, y] && [x] + ([y] + [z]) == [x, y, z];
    assert [Decimal(e)] + [x, y, z, Decimal(d)] == [Decimal(e), x, y, z, Decimal(d)];
    assert [a] + seq(3, _ => 0) == [a, 0, 0, 0] && [a, b] + seq(2, _ => 0) == [a, b, 0, 0];
    assert [a, b, c] + seq(1, _ => 0) == [a, b, c, 0] && [a, b, c, d] + seq(0, _ => 0) == [a, b, c, d];
  }

  lemma Plain(n: nat)
    requires n <= 255
    ensures Tight(Decimal(n)) && '.' !in Decimal(n)
  {
    DecimalIsPlain(n);
    hide Decimal, IsSpace;
  }

  lemma ReadsOctets(parts: seq<string>, o: seq<nat>)
    requires |parts| == |o| && forall i | 0 <= i < |o| :: o[i] <= 255 && parts[i] == Decimal(o[i])
    ensures ParseOctets(parts) == Some(o)
  {
    hide Decimal, ParseU8, ParseOctets;
    forall i | 0 <= i < |o| ensures ParseU8(parts[i]) == Some(o[i]) {
      DecimalParses(o[i]);
    }
    var read := ParseOctets(parts);
    assert read.Some?;
    assert read.value == o;
  }
}
