/** The route part of `VpnOptions`: include and exclude lists, DNS host routes,
    and their compilation into positive CIDR routes only. */
module RoutePolicy {
  import opened Lists
  import opened Words
  import opened IpPrefixes
  import opened RouteFragments

  /** One route string, up to the distinctions the compiler can see: the text it
      prints for a prefix, some other text that normalizes to a prefix, or text
      that `normalize_route_cidr` refuses. */
  datatype RouteText =
    | Canonical(prefix: IpPrefix)
    | Spelled(parsed: Option<IpPrefix>, spelling: string)
  {
    function Normalize(): Option<IpPrefix> {
      match this
      case Canonical(p) => Some(p)
      case Spelled(parsed, _) => parsed
    }

    ghost predicate Valid() {
      Normalize().Some? ==> Normalize().value.WellFormed()
    }
  }

  ghost predicate AllValid(routes: seq<RouteText>) {
    forall r | r in routes :: r.Valid()
  }

  predicate AllNormalize(routes: seq<RouteText>) {
    forall r | r in routes :: r.Normalize().Some?
  }

  function Print(prefixes: seq<IpPrefix>): (texts: seq<RouteText>)
    ensures |texts| == |prefixes| && forall i | 0 <= i < |texts| :: texts[i] == Canonical(prefixes[i])
  {
    seq(|prefixes|, i requires 0 <= i < |prefixes| => Canonical(prefixes[i]))
  }

  /** The prefixes of the routes that normalize, in list order. */
  function Prefixes(routes: seq<RouteText>): (prefixes: seq<IpPrefix>)
    ensures AllValid(routes) ==> AllWellFormed(prefixes)
  {
    if routes == [] then []
    else
      assert forall r | r in routes[..|routes| - 1] :: r in routes;
      assert routes[|routes| - 1] in routes;
      Prefixes(routes[..|routes| - 1])
      + (if routes[|routes| - 1].Normalize().Some? then [routes[|routes| - 1].Normalize().value] else [])
  }

  function Normalized(routes: seq<RouteText>): seq<RouteText> {
    Print(Unique(Prefixes(routes)))
  }

  // ---- the policy: longest matching prefix, ties excluded ----

  /** Length of the longest prefix that matches, -1 when none does. */
  ghost function LongestMatch(routes: seq<IpPrefix>, family: Family, address: Word): (bits: int)
    requires AllWellFormed(routes) && |address| == Width(family)
    ensures bits == -1 || exists r | r in routes :: Matches(r, family, address) && r.bits == bits
    ensures forall r | r in routes && Matches(r, family, address) :: r.bits <= bits
  {
    if routes == [] then -1
    else
      var rest := LongestMatch(routes[1..], family, address);
      if Matches(routes[0], family, address) && routes[0].bits > rest then routes[0].bits else rest
  }

  ghost predicate PolicyIncludes(includes: seq<IpPrefix>, excludes: seq<IpPrefix>, family: Family, address: Word)
    requires AllWellFormed(includes) && AllWellFormed(excludes) && |address| == Width(family)
  {
    LongestMatch(includes, family, address) > LongestMatch(excludes, family, address)
  }

  // ---- the compiler ----

  /** A narrower include wins over a broader exclude; exact ties are excluded. */
  predicate Applicable(inclusion: IpPrefix, exclusion: IpPrefix)
    requires inclusion.WellFormed() && exclusion.WellFormed()
  {
    !(inclusion.family != exclusion.family || (inclusion.bits > exclusion.bits && exclusion.Contains(inclusion)))
  }

  function ApplicableOnly(inclusion: IpPrefix, exclusions: seq<IpPrefix>): (applicable: seq<IpPrefix>)
    requires inclusion.WellFormed() && AllWellFormed(exclusions)
    ensures AllWellFormed(applicable)
    ensures forall e :: e in applicable <==> e in exclusions && Applicable(inclusion, e)
    ensures |applicable| <= |exclusions|
  {
    if exclusions == [] then []
    else
      ApplicableOnly(inclusion, exclusions[..|exclusions| - 1])
      + (if Applicable(inclusion, exclusions[|exclusions| - 1]) then [exclusions[|exclusions| - 1]] else [])
  }

  function Fragments(inclusion: IpPrefix, exclusions: seq<IpPrefix>): (fragments: seq<IpPrefix>)
    requires inclusion.WellFormed() && AllWellFormed(exclusions)
    ensures AllWellFormed(fragments)
  {
    assert forall p | p in [inclusion] :: p == inclusion;
    Carve([inclusion], ApplicableOnly(inclusion, exclusions))
  }

  function AllFragments(includes: seq<IpPrefix>, exclusions: seq<IpPrefix>): (fragments: seq<IpPrefix>)
    requires AllWellFormed(includes) && AllWellFormed(exclusions)
    ensures AllWellFormed(fragments)
  {
    if includes == [] then []
    else AllFragments(includes[..|includes| - 1], exclusions) + Fragments(includes[|includes| - 1], exclusions)
  }

  function Compiled(includes: seq<IpPrefix>, exclusions: seq<IpPrefix>): (routes: seq<IpPrefix>)
    requires AllWellFormed(includes) && AllWellFormed(exclusions)
    ensures AllWellFormed(routes)
  {
    Unique(AllFragments(includes, exclusions))
  }

  // ---- what one include becomes ----

  ghost function ApplicableSet(inclusion: IpPrefix, exclusions: seq<IpPrefix>): (avoid: set<IpPrefix>)
    requires inclusion.WellFormed() && AllWellFormed(exclusions)
    ensures SetWellFormed(avoid)
  {
    set e | e in exclusions && Applicable(inclusion, e)
  }

  lemma FragmentsAreBlocks(inclusion: IpPrefix, exclusions: seq<IpPrefix>)
    requires inclusion.WellFormed() && AllWellFormed(exclusions)
    ensures Fragments(inclusion, exclusions) == Blocks(inclusion, ApplicableSet(inclusion, exclusions))
  {
    var applicable := ApplicableOnly(inclusion, exclusions);
    CarveIsBlocks(inclusion, applicable);
    assert (set e | e in applicable) == ApplicableSet(inclusion, exclusions);
  }

  /** The fragments of one include are canonical: numerically ascending (hence
      pairwise disjoint), inside the include, clear of every applicable exclude,
      and maximal with that property; there are at most `1 + (width - 1) * n`. */
  lemma FragmentsCanonical(inclusion: IpPrefix, exclusions: seq<IpPrefix>)
    requires inclusion.WellFormed() && AllWellFormed(exclusions)
    ensures Ascending(Fragments(inclusion, exclusions), inclusion.family)
    ensures forall b | b in Fragments(inclusion, exclusions) ::
              Covers(inclusion, b) && forall e | e in exclusions && Applicable(inclusion, e) :: Disjoint(e, b)
    ensures forall q: IpPrefix | q.WellFormed() && Covers(inclusion, q)
              && AllDisjoint(ApplicableSet(inclusion, exclusions), q) ::
              exists b | b in Fragments(inclusion, exclusions) :: Covers(b, q)
    ensures |Fragments(inclusion, exclusions)| <= 1 + (Width(inclusion.family) - 1) * |exclusions|
  {
    var avoid := ApplicableSet(inclusion, exclusions);
    FragmentsAreBlocks(inclusion, exclusions);
    BlocksAscending(inclusion, avoid);
    BlocksInside(inclusion, avoid);
    forall b, e | b in Fragments(inclusion, exclusions) && e in exclusions && Applicable(inclusion, e) ensures Disjoint(e, b) {
      assert e in avoid;
    }
    forall q: IpPrefix | q.WellFormed() && Covers(inclusion, q) && AllDisjoint(avoid, q)
      ensures exists b | b in Fragments(inclusion, exclusions) :: Covers(b, q)
    {
      BlocksMaximal(inclusion, avoid, q);
    }
    BlocksBound(inclusion, avoid);
    var applicable := ApplicableOnly(inclusion, exclusions);
    ToSetSize(applicable);
    assert ToSet(applicable) == avoid;
    if inclusion.family.V4? {
      assert 31 * |avoid| <= 31 * |exclusions|;
    } else {
      assert 127 * |avoid| <= 127 * |exclusions|;
    }
  }

  /** Among matching prefixes, an exclude applies unless it is strictly shorter. */
  lemma FragmentsExact(inclusion: IpPrefix, exclusions: seq<IpPrefix>, address: Word)
    requires inclusion.WellFormed() && AllWellFormed(exclusions) && |address| == Width(inclusion.family)
    ensures Routed(Fragments(inclusion, exclusions), inclusion.family, address)
       <==> Matches(inclusion, inclusion.family, address)
            && forall e | e in exclusions && Matches(e, inclusion.family, address) :: e.bits < inclusion.bits
  {
    var avoid := ApplicableSet(inclusion, exclusions);
    FragmentsAreBlocks(inclusion, exclusions);
    BlocksExact(inclusion, avoid, address);
    if Matches(inclusion, inclusion.family, address) {
      forall e | e in exclusions && Matches(e, inclusion.family, address)
        ensures e in avoid <==> inclusion.bits <= e.bits
      {
        ContainsIsLeadingBits(e, inclusion);
        DisjointMatches(e, inclusion, inclusion.family, address);
      }
    }
  }

  lemma {:induction false} AllFragmentsMembers(includes: seq<IpPrefix>, exclusions: seq<IpPrefix>, p: IpPrefix)
    requires AllWellFormed(includes) && AllWellFormed(exclusions)
    ensures p in AllFragments(includes, exclusions) <==> exists i | i in includes :: p in Fragments(i, exclusions)
  {
    if includes != [] {
      var n := |includes| - 1;
      AllFragmentsMembers(includes[..n], exclusions, p);
      assert includes == includes[..n] + [includes[n]];
      assert includes[n] in includes;
    }
  }

  lemma CompiledMembers(includes: seq<IpPrefix>, exclusions: seq<IpPrefix>, p: IpPrefix)
    requires AllWellFormed(includes) && AllWellFormed(exclusions)
    ensures p in Compiled(includes, exclusions) <==> exists i | i in includes :: p in Fragments(i, exclusions)
  {
    AllFragmentsMembers(includes, exclusions, p);
  }

  /** Compilation is exact: an address of either family is routed iff its longest
      matching include is strictly longer than its longest matching exclude. */
  lemma CompiledExact(includes: seq<IpPrefix>, exclusions: seq<IpPrefix>, family: Family, address: Word)
    requires AllWellFormed(includes) && AllWellFormed(exclusions) && |address| == Width(family)
    ensures Routed(Compiled(includes, exclusions), family, address)
       <==> PolicyIncludes(includes, exclusions, family, address)
  {
    var out := Compiled(includes, exclusions);
    if Routed(out, family, address) {
      var r :| r in out && Matches(r, family, address);
      CompiledMembers(includes, exclusions, r);
      var i :| i in includes && r in Fragments(i, exclusions);
      FragmentsAreBlocks(i, exclusions);
      BlocksInside(i, ApplicableSet(i, exclusions));
      FragmentsExact(i, exclusions, address);
      assert Routed(Fragments(i, exclusions), i.family, address);
    }
    if PolicyIncludes(includes, exclusions, family, address) {
      var i :| i in includes && Matches(i, family, address) && i.bits == LongestMatch(includes, family, address);
      FragmentsExact(i, exclusions, address);
      var r :| r in Fragments(i, exclusions) && Matches(r, family, address);
      CompiledMembers(includes, exclusions, r);
    }
  }

  /** Nothing is left exactly when the policy includes no address at all. */
  lemma CompiledEmpty(includes: seq<IpPrefix>, exclusions: seq<IpPrefix>)
    requires AllWellFormed(includes) && AllWellFormed(exclusions)
    ensures Compiled(includes, exclusions) == []
       <==> forall family: Family, address: Word | |address| == Width(family) ::
              !PolicyIncludes(includes, exclusions, family, address)
  {
    var out := Compiled(includes, exclusions);
    forall family: Family, address: Word | |address| == Width(family)
      ensures Routed(out, family, address) <==> PolicyIncludes(includes, exclusions, family, address)
    {
      CompiledExact(includes, exclusions, family, address);
    }
    if out != [] {
      var r := out[0];
      assert r in out;
      NetworkMatches(r);
      assert Routed(out, r.family, r.network);
    }
  }

  lemma {:induction false} AllFragmentsSetOnly(includes: seq<IpPrefix>, a: seq<IpPrefix>, b: seq<IpPrefix>)
    requires AllWellFormed(includes) && AllWellFormed(a) && AllWellFormed(b)
    requires ToSet(a) == ToSet(b)
    ensures AllFragments(includes, a) == AllFragments(includes, b)
  {
    if includes != [] {
      var n := |includes| - 1;
      AllFragmentsSetOnly(includes[..n], a, b);
      FragmentsAreBlocks(includes[n], a);
      FragmentsAreBlocks(includes[n], b);
      assert forall e :: e in a <==> e in ToSet(a);
      assert forall e :: e in b <==> e in ToSet(b);
      assert ApplicableSet(includes[n], a) == ApplicableSet(includes[n], b);
    }
  }

  /** The order and repetition of the excludes do not influence the output list. */
  lemma CompiledOrderIndependent(includes: seq<IpPrefix>, a: seq<IpPrefix>, b: seq<IpPrefix>)
    requires AllWellFormed(includes) && AllWellFormed(a) && AllWellFormed(b)
    requires ToSet(a) == ToSet(b)
    ensures Compiled(includes, a) == Compiled(includes, b)
  {
    AllFragmentsSetOnly(includes, a, b);
  }

  lemma {:induction false} AllFragmentsNoExcludes(includes: seq<IpPrefix>)
    requires AllWellFormed(includes)
    ensures AllFragments(includes, []) == includes
  {
    if includes != [] {
      var n := |includes| - 1;
      AllFragmentsNoExcludes(includes[..n]);
      assert Fragments(includes[n], []) == [includes[n]];
      assert includes == includes[..n] + [includes[n]];
    }
  }

  /** Without excludes the normalized include list is already the result. */
  lemma CompiledNoExcludes(routes: seq<RouteText>)
    requires AllValid(routes)
    ensures Compiled(Unique(Prefixes(routes)), []) == Unique(Prefixes(routes))
  {
    AllFragmentsNoExcludes(Unique(Prefixes(routes)));
    UniqueElements(Prefixes(routes));
    UniqueOfDistinct(Unique(Prefixes(routes)));
  }

  // ---- DNS host routes ----

  datatype HostAddress = HostAddress(family: Family, address: Word) {
    ghost predicate Valid() {
      |address| == Width(family)
    }

    function HostPrefix(): (p: IpPrefix) {
      IpPrefix(family, address, Width(family))
    }
  }

  /** A resolver string is a literal address, or text that does not parse. */
  type DnsServer = Option<HostAddress>

  ghost predicate AllServersValid(dns: seq<DnsServer>) {
    forall d | d in dns && d.Some? :: d.value.Valid()
  }

  function WithHostRoute(routes: seq<RouteText>, server: DnsServer): seq<RouteText> {
    if server.None? || Canonical(server.value.HostPrefix()) in routes then routes
    else [Canonical(server.value.HostPrefix())] + routes
  }

  /** The loop runs over the servers in reverse and inserts at the front. */
  function WithDnsRoutes(routes: seq<RouteText>, dns: seq<DnsServer>): seq<RouteText> {
    if dns == [] then routes else WithHostRoute(WithDnsRoutes(routes, dns[1..]), dns[0])
  }

  lemma {:induction false} DnsRoutesMembers(routes: seq<RouteText>, dns: seq<DnsServer>, r: RouteText)
    ensures r in WithDnsRoutes(routes, dns)
       <==> r in routes || exists d | d in dns :: d.Some? && r == Canonical(d.value.HostPrefix())
  {
    if dns != [] {
      DnsRoutesMembers(routes, dns[1..], r);
      assert dns == [dns[0]] + dns[1..];
      assert dns[0] in dns;
    }
  }

  lemma {:induction false} DnsRoutesAlreadyThere(routes: seq<RouteText>, dns: seq<DnsServer>)
    requires forall d | d in dns && d.Some? :: Canonical(d.value.HostPrefix()) in routes
    ensures WithDnsRoutes(routes, dns) == routes
  {
    if dns != [] {
      assert dns[0] in dns;
      DnsRoutesAlreadyThere(routes, dns[1..]);
    }
  }

  /** Adding the DNS routes a second time changes nothing. */
  lemma DnsRoutesIdempotent(routes: seq<RouteText>, dns: seq<DnsServer>)
    ensures WithDnsRoutes(WithDnsRoutes(routes, dns), dns) == WithDnsRoutes(routes, dns)
  {
    var once := WithDnsRoutes(routes, dns);
    forall d | d in dns && d.Some? ensures Canonical(d.value.HostPrefix()) in once {
      DnsRoutesMembers(routes, dns, Canonical(d.value.HostPrefix()));
    }
    DnsRoutesAlreadyThere(once, dns);
  }

  /** The literal resolvers' host routes, in server order. */
  function LiteralHosts(dns: seq<DnsServer>): seq<RouteText> {
    if dns == [] then []
    else (if dns[0].Some? then [Canonical(dns[0].value.HostPrefix())] else []) + LiteralHosts(dns[1..])
  }

  lemma DistinctTail<T>(x: T, rest: seq<T>)
    requires Distinct([x] + rest)
    ensures Distinct(rest) && x !in rest
  {
    var all := [x] + rest;
    forall i, j | 0 <= i < j < |rest| ensures rest[i] != rest[j] {
      assert all[i + 1] != all[j + 1];
    }
    forall i | 0 <= i < |rest| ensures rest[i] != x {
      assert all[0] != all[i + 1];
    }
  }

  /** Different resolvers that are not listed yet come first, in server order. */
  lemma {:induction false} DnsRoutesInFront(routes: seq<RouteText>, dns: seq<DnsServer>)
    requires Distinct(LiteralHosts(dns)) && forall r | r in LiteralHosts(dns) :: r !in routes
    ensures WithDnsRoutes(routes, dns) == LiteralHosts(dns) + routes
  {
    hide Distinct;
    if dns != [] {
      var rest := LiteralHosts(dns[1..]);
      if dns[0].Some? {
        var host := Canonical(dns[0].value.HostPrefix());
        DistinctTail(host, rest);
        DnsRoutesInFront(routes, dns[1..]);
        assert [host] + (rest + routes) == [host] + rest + routes;
      } else {
        assert LiteralHosts(dns) == rest;
        DnsRoutesInFront(routes, dns[1..]);
      }
    }
  }

  // ---- normalization ----

  lemma {:induction false} PrefixesMembers(routes: seq<RouteText>, p: IpPrefix)
    ensures p in Prefixes(routes) <==> exists r | r in routes :: r.Normalize() == Some(p)
  {
    if routes != [] {
      var n := |routes| - 1;
      PrefixesMembers(routes[..n], p);
      assert routes == routes[..n] + [routes[n]];
      assert routes[n] in routes;
    }
  }

  lemma {:induction false} PrefixesOfPrint(prefixes: seq<IpPrefix>)
    ensures Prefixes(Print(prefixes)) == prefixes
  {
    if prefixes != [] {
      var n := |prefixes| - 1;
      PrefixesOfPrint(prefixes[..n]);
      assert Print(prefixes)[..n] == Print(prefixes[..n]);
      assert prefixes == prefixes[..n] + [prefixes[n]];
    }
  }

  lemma NormalizedIsPrint(routes: seq<RouteText>)
    requires AllValid(routes)
    ensures Normalized(routes) == Print(Unique(Prefixes(routes)))
    ensures Prefixes(Normalized(routes)) == Unique(Prefixes(routes))
    ensures AllWellFormed(Unique(Prefixes(routes))) && AllValid(Normalized(routes))
  {
    NormalizedFacts(routes);
    PrefixesOfPrint(Unique(Prefixes(routes)));
  }

  /** Normalizing is idempotent, keeps the set of prefixes and leaves no duplicate. */
  lemma NormalizedFacts(routes: seq<RouteText>)
    requires AllValid(routes)
    ensures Normalized(Normalized(routes)) == Normalized(routes)
    ensures ToSet(Prefixes(Normalized(routes))) == ToSet(Prefixes(routes))
    ensures Distinct(Prefixes(Normalized(routes)))
    ensures AllValid(Normalized(routes)) && AllNormalize(Normalized(routes))
  {
    var u := Unique(Prefixes(routes));
    UniqueElements(Prefixes(routes));
    PrefixesOfPrint(u);
    UniqueOfDistinct(u);
    forall r | r in Normalized(routes) ensures r.Valid() && r.Normalize().Some? {
      var i :| 0 <= i < |u| && r == Canonical(u[i]);
      assert u[i] in ToSet(u);
      assert u[i] in Prefixes(routes);
    }
  }

  // ---- the options object ----

  datatype SplitTunnelMode = Auto | OnVpnDns | OnUplinkDns

  datatype RouteResult = Done | InvalidInclude(route: RouteText) | InvalidExclude(route: RouteText) | NothingRouted

  /** What `from_network` reads of the network snapshot and the profile. */
  datatype NetworkPolicy = NetworkPolicy(
    serverRoutes: seq<RouteText>, serverExcludes: seq<RouteText>, dns: seq<DnsServer>, hasIpv6: bool,
    forceGlobal: bool, splitMode: SplitTunnelMode, customSplit: seq<RouteText>, allowLocalLan: bool)
  {
    ghost predicate Valid() {
      AllValid(serverRoutes) && AllValid(serverExcludes) && AllValid(customSplit) && AllServersValid(dns)
    }

    predicate CustomRoutes() {
      !forceGlobal && !splitMode.Auto? && Prefixes(customSplit) != []
    }

    predicate UsesDefault() {
      forceGlobal || (!CustomRoutes() && Prefixes(serverRoutes) == [])
    }

    function TunnelDns(): seq<DnsServer> {
      if CustomRoutes() && splitMode.OnUplinkDns? then [] else dns
    }
  }

  /** Private and link-local prefixes kept off the tunnel. */
  function LocalNetworks(): seq<IpPrefix> {
    [IpPrefix(V4, FromOctets(10, 0, 0, 0), 8), IpPrefix(V4, FromOctets(172, 16, 0, 0), 12),
     IpPrefix(V4, FromOctets(192, 168, 0, 0), 16), IpPrefix(V4, FromOctets(169, 254, 0, 0), 16)]
  }

  lemma {:induction false} ZeroBits(k: nat)
    ensures Bits(0, k) == Zero(k)
  {
    if k > 0 {
      ZeroBits(k - 1);
    }
  }

  /** 16 in eight bits ends in four zeros. */
  lemma SixteenBits()
    ensures Bits(16, 8) == Bits(1, 4) + Zero(4)
  {
    assert Bits(16, 8) == Bits(1, 4) + [false] + [false] + [false] + [false];
  }

  lemma LocalNetworksWellFormed()
    ensures AllWellFormed(LocalNetworks())
  {
    hide Bits;
    ZeroBits(8);
    SixteenBits();
    var all := LocalNetworks();
    assert all[0].WellFormed();
    assert all[1].WellFormed();
    assert all[2].WellFormed() && all[3].WellFormed();
  }

  function DefaultRoute(family: Family): (p: IpPrefix)
    ensures p.WellFormed()
  {
    IpPrefix(family, Zero(Width(family)), 0)
  }

  function DefaultRoutes(hasIpv6: bool): (texts: seq<RouteText>)
    ensures AllValid(texts)
  {
    [Canonical(DefaultRoute(V4))] + if hasIpv6 then [Canonical(DefaultRoute(V6))] else []
  }

  /** Append each local network that is not listed yet. */
  function WithLocalNetworks(excludes: seq<RouteText>, lans: seq<IpPrefix>): seq<RouteText> {
    if lans == [] then excludes
    else
      var before := WithLocalNetworks(excludes, lans[..|lans| - 1]);
      var lan := Canonical(lans[|lans| - 1]);
      if lan in before then before else before + [lan]
  }

  lemma {:induction false} LocalNetworksMembers(excludes: seq<RouteText>, lans: seq<IpPrefix>, r: RouteText)
    ensures r in WithLocalNetworks(excludes, lans) <==> r in excludes || exists l | l in lans :: r == Canonical(l)
  {
    if lans != [] {
      var n := |lans| - 1;
      LocalNetworksMembers(excludes, lans[..n], r);
      assert lans == lans[..n] + [lans[n]];
      assert lans[n] in lans;
    }
  }

  /** The first route of the list that does not normalize. */
  ghost predicate FirstBad(texts: seq<RouteText>, bad: RouteText) {
    exists i :: 0 <= i < |texts| && texts[i] == bad && bad.Normalize().None? && AllNormalize(texts[..i])
  }

  class VpnOptions {
    var routes: seq<RouteText>
    var excludedRoutes: seq<RouteText>
    var allowBypass: bool
    var forceGlobal: bool
    const dnsAddresses: seq<DnsServer>
    const hasIpv6: bool

    ghost predicate Valid()
      reads this
    {
      AllValid(routes) && AllValid(excludedRoutes) && AllServersValid(dnsAddresses)
    }

    constructor FromNetwork(policy: NetworkPolicy)
      requires policy.Valid()
      ensures Valid()
      ensures dnsAddresses == policy.TunnelDns() && hasIpv6 == policy.hasIpv6
      ensures forceGlobal == policy.UsesDefault()
      ensures allowBypass == (policy.allowLocalLan && !policy.UsesDefault())
      ensures routes == Normalized(WithDnsRoutes(
                          if policy.UsesDefault() then DefaultRoutes(policy.hasIpv6)
                          else if policy.CustomRoutes() then Print(Prefixes(policy.customSplit))
                          else Print(Prefixes(policy.serverRoutes)), policy.TunnelDns()))
      ensures excludedRoutes == Normalized(
                                  if policy.allowLocalLan && policy.UsesDefault()
                                  then WithLocalNetworks(Print(Prefixes(policy.serverExcludes)), LocalNetworks())
                                  else Print(Prefixes(policy.serverExcludes)))
    {
      hide Bits, FromOctets, LocalNetworks;
      var serverSplit, customSplit := Prefixes(policy.serverRoutes), Prefixes(policy.customSplit);
      var useDefault := false;
      if policy.forceGlobal {
        routes, useDefault := DefaultRoutes(policy.hasIpv6), true;
        dnsAddresses := policy.dns;
      } else if policy.splitMode.OnVpnDns? && customSplit != [] {
        routes := Print(customSplit);
        dnsAddresses := policy.dns;
      } else if policy.splitMode.OnUplinkDns? && customSplit != [] {
        routes := Print(customSplit);
        dnsAddresses := [];
      } else if serverSplit == [] {
        routes, useDefault := DefaultRoutes(policy.hasIpv6), true;
        dnsAddresses := policy.dns;
      } else {
        routes := Print(serverSplit);
        dnsAddresses := policy.dns;
      }
      excludedRoutes := Print(Prefixes(policy.serverExcludes));
      allowBypass := policy.allowLocalLan && !useDefault;
      forceGlobal := useDefault;
      hasIpv6 := policy.hasIpv6;
      new;
      if policy.allowLocalLan && useDefault {
        AddLocalNetworks();
      }
      PushDnsHostRoutes();
      NormalizeRoutes();
    }

    method AddLocalNetworks()
      requires Valid()
      modifies this`excludedRoutes
      ensures Valid() && excludedRoutes == WithLocalNetworks(old(excludedRoutes), LocalNetworks())
    {
      var lans := LocalNetworks();
      LocalNetworksWellFormed();
      for i := 0 to |lans|
        invariant excludedRoutes == WithLocalNetworks(old(excludedRoutes), lans[..i])
        invariant Valid()
      {
        assert lans[..i + 1][..i] == lans[..i];
        assert lans[i] in lans;
        if Canonical(lans[i]) !in excludedRoutes {
          excludedRoutes := excludedRoutes + [Canonical(lans[i])];
        }
      }
      assert lans[..|lans|] == lans;
    }

    method ApplyForceGlobal()
      requires Valid()
      modifies this
      ensures Valid() && forceGlobal == old(forceGlobal)
      ensures !forceGlobal ==> routes == old(routes) && excludedRoutes == old(excludedRoutes) && allowBypass == old(allowBypass)
      ensures forceGlobal ==>
                && !allowBypass
                && routes == Normalized(WithDnsRoutes(DefaultRoutes(hasIpv6), dnsAddresses))
                && excludedRoutes == Normalized(old(excludedRoutes))
    {
      if !forceGlobal {
        return;
      }
      routes := DefaultRoutes(hasIpv6);
      allowBypass := false;
      PushDnsHostRoutes();
      NormalizeRoutes();
    }

    method PushDnsHostRoutes()
      requires Valid()
      modifies this`routes
      ensures Valid() && routes == WithDnsRoutes(old(routes), dnsAddresses)
    {
      var i := |dnsAddresses|;
      while i > 0
        invariant 0 <= i <= |dnsAddresses|
        invariant Valid() && routes == WithDnsRoutes(old(routes), dnsAddresses[i..])
      {
        i := i - 1;
        assert dnsAddresses[i..][1..] == dnsAddresses[i + 1..];
        assert dnsAddresses[i] in dnsAddresses;
        if dnsAddresses[i].Some? {
          var hostRoute := Canonical(dnsAddresses[i].value.HostPrefix());
          if hostRoute !in routes {
            routes := [hostRoute] + routes;
          }
        }
      }
    }

    method NormalizeRoutes()
      requires Valid()
      modifies this`routes, this`excludedRoutes
      ensures Valid()
      ensures routes == Normalized(old(routes)) && excludedRoutes == Normalized(old(excludedRoutes))
    {
      NormalizedFacts(routes);
      NormalizedFacts(excludedRoutes);
      var normal := NormalizeList(routes);
      routes := Print(normal);
      normal := NormalizeList(excludedRoutes);
      excludedRoutes := Print(normal);
    }

    static method NormalizeList(texts: seq<RouteText>) returns (result: seq<IpPrefix>)
      ensures result == Unique(Prefixes(texts))
    {
      var parsed: seq<IpPrefix> := [];
      for i := 0 to |texts|
        invariant parsed == Prefixes(texts[..i])
      {
        assert texts[..i + 1][..i] == texts[..i];
        if texts[i].Normalize().Some? {
          parsed := parsed + [texts[i].Normalize().value];
        }
      }
      assert texts[..|texts|] == texts;
      result := RetainFirst(parsed);
    }

    static method RetainFirst(items: seq<IpPrefix>) returns (result: seq<IpPrefix>)
      ensures result == Unique(items)
    {
      var seen: set<IpPrefix> := {};
      result := [];
      for i := 0 to |items|
        invariant result == Unique(items[..i])
        invariant forall p :: p in seen <==> p in result
      {
        assert items[..i + 1][..i] == items[..i];
        if items[i] !in seen {
          seen := seen + {items[i]};
          result := result + [items[i]];
        }
      }
      assert items[..|items|] == items;
    }

    /** `materialize_excluded_routes`: afterwards the include list alone carries
        the policy, or the call fails and says which route was bad or that
        nothing would be routed. */
    method MaterializeExcludedRoutes() returns (result: RouteResult)
      requires Valid()
      modifies this`routes, this`excludedRoutes
      ensures Valid()
      ensures result.InvalidInclude? <==> !AllNormalize(old(routes))
      ensures result.InvalidExclude? <==> AllNormalize(old(routes)) && !AllNormalize(old(excludedRoutes))
      ensures result.InvalidInclude? ==> FirstBad(old(routes), result.route)
      ensures result.InvalidExclude? ==> FirstBad(old(excludedRoutes), result.route)
      ensures result.InvalidInclude? || result.InvalidExclude? ==> unchanged(this)
      ensures result.NothingRouted? ==>
                && Compiled(Unique(Prefixes(old(routes))), Unique(Prefixes(old(excludedRoutes)))) == []
                && routes == Normalized(old(routes)) && excludedRoutes == Normalized(old(excludedRoutes))
      ensures result.Done? ==>
                && excludedRoutes == []
                && Prefixes(routes) == Compiled(Unique(Prefixes(old(routes))), Unique(Prefixes(old(excludedRoutes))))
                && routes == Print(Prefixes(routes))
                && routes != []
    {
      hide Compiled, Normalized, AllFragments, Unique;
      var bad := FirstMalformed(routes);
      if bad.Some? {
        return InvalidInclude(bad.value);
      }
      bad := FirstMalformed(excludedRoutes);
      if bad.Some? {
        return InvalidExclude(bad.value);
      }
      NormalizeRoutes();
      ghost var includes, excludes := Unique(Prefixes(old(routes))), Unique(Prefixes(old(excludedRoutes)));
      NormalizedIsPrint(old(routes));
      NormalizedIsPrint(old(excludedRoutes));
      if excludedRoutes == [] {
        CompiledNoExcludes(old(routes));
        return if routes == [] then NothingRouted else Done;
      }
      var includeList := ParseAll(routes, includes);
      var exclusions := ParseAll(excludedRoutes, excludes);
      var compiled := CompileLoop(includeList, exclusions);
      if compiled == [] {
        return NothingRouted;
      }
      PrefixesOfPrint(compiled);
      routes := Print(compiled);
      excludedRoutes := [];
      return Done;
    }

    static method FirstMalformed(texts: seq<RouteText>) returns (bad: Option<RouteText>)
      ensures bad.None? <==> AllNormalize(texts)
      ensures bad.Some? ==> FirstBad(texts, bad.value)
    {
      for i := 0 to |texts|
        invariant AllNormalize(texts[..i])
      {
        if texts[i].Normalize().None? {
          return Some(texts[i]);
        }
        assert texts[..i + 1] == texts[..i] + [texts[i]];
      }
      assert texts[..|texts|] == texts;
      return None;
    }

    /** The nested loops: every include is carved, then duplicates go. */
    static method CompileLoop(inclusions: seq<IpPrefix>, exclusions: seq<IpPrefix>) returns (compiled: seq<IpPrefix>)
      requires AllWellFormed(inclusions) && AllWellFormed(exclusions)
      ensures compiled == Compiled(inclusions, exclusions)
    {
      hide Fragments, Unique;
      var materialized: seq<IpPrefix> := [];
      for i := 0 to |inclusions|
        invariant materialized == AllFragments(inclusions[..i], exclusions)
      {
        assert inclusions[..i + 1][..i] == inclusions[..i];
        assert inclusions[i] in inclusions;
        var fragments := CarveInclude(inclusions[i], exclusions);
        materialized := materialized + fragments;
      }
      assert inclusions[..|inclusions|] == inclusions;
      compiled := RetainFirst(materialized);
    }

    /** The second parse, of the normalized texts: it cannot fail. */
    static method ParseAll(texts: seq<RouteText>, ghost prefixes: seq<IpPrefix>) returns (parsed: seq<IpPrefix>)
      requires texts == Print(prefixes)
      ensures parsed == prefixes
    {
      parsed := [];
      for i := 0 to |texts|
        invariant parsed == prefixes[..i]
      {
        parsed := parsed + [texts[i].prefix];
      }
    }

    /** Subtract every applicable exclusion from one include, stopping early when
        nothing is left. */
    static method CarveInclude(inclusion: IpPrefix, exclusions: seq<IpPrefix>) returns (fragments: seq<IpPrefix>)
      requires inclusion.WellFormed() && AllWellFormed(exclusions)
      ensures fragments == Fragments(inclusion, exclusions)
    {
      fragments := [inclusion];
      for i := 0 to |exclusions|
        invariant fragments == Fragments(inclusion, exclusions[..i])
      {
        assert exclusions[..i + 1][..i] == exclusions[..i];
        assert exclusions[i] in exclusions;
        if inclusion.family != exclusions[i].family
           || (inclusion.bits > exclusions[i].bits && exclusions[i].Contains(inclusion))
        {
          assert ApplicableOnly(inclusion, exclusions[..i + 1]) == ApplicableOnly(inclusion, exclusions[..i]);
          continue;
        }
        CarveAppend([inclusion], ApplicableOnly(inclusion, exclusions[..i]), exclusions[i]);
        fragments := SubtractFromAll(fragments, exclusions[i]);
        if fragments == [] {
          CarveNothingMore(inclusion, exclusions, i + 1);
          return;
        }
      }
      assert exclusions[..|exclusions|] == exclusions;
    }

    static method SubtractFromAll(fragments: seq<IpPrefix>, exclusion: IpPrefix) returns (result: seq<IpPrefix>)
      requires AllWellFormed(fragments) && exclusion.WellFormed()
      ensures result == SubtractAll(fragments, exclusion)
    {
      result := [];
      for i := 0 to |fragments|
        invariant result == SubtractAll(fragments[..i], exclusion)
      {
        assert fragments[..i + 1] == fragments[..i] + [fragments[i]];
        SubtractAllConcat(fragments[..i], [fragments[i]], exclusion);
        SubtractAllOne(fragments[i], exclusion);
        var parts := SubtractLoop(fragments[i], exclusion);
        result := result + parts;
      }
      assert fragments[..|fragments|] == fragments;
    }
  }

  lemma {:induction false} CarveAppend(fragments: seq<IpPrefix>, exclusions: seq<IpPrefix>, e: IpPrefix)
    requires AllWellFormed(fragments) && AllWellFormed(exclusions) && e.WellFormed()
    ensures AllWellFormed(exclusions + [e])
    ensures Carve(fragments, exclusions + [e]) == SubtractAll(Carve(fragments, exclusions), e)
    decreases |exclusions|
  {
    assert forall p | p in exclusions + [e] :: p in exclusions || p == e;
    if exclusions == [] {
      assert exclusions + [e] == [e];
      assert Carve(fragments, [e]) == Carve(SubtractAll(fragments, e), []);
    } else {
      assert (exclusions + [e])[0] == exclusions[0] && (exclusions + [e])[1..] == exclusions[1..] + [e];
      CarveAppend(SubtractAll(fragments, exclusions[0]), exclusions[1..], e);
    }
  }

  /** Once nothing is left, later exclusions change nothing. */
  lemma {:induction false} CarveNothingMore(inclusion: IpPrefix, exclusions: seq<IpPrefix>, n: nat)
    requires inclusion.WellFormed() && AllWellFormed(exclusions) && n <= |exclusions|
    requires Fragments(inclusion, exclusions[..n]) == []
    ensures Fragments(inclusion, exclusions) == []
    decreases |exclusions| - n
  {
    if n == |exclusions| {
      assert exclusions[..n] == exclusions;
    } else {
      assert exclusions[..n + 1][..n] == exclusions[..n];
      assert exclusions[n] in exclusions;
      if Applicable(inclusion, exclusions[n]) {
        CarveAppend([inclusion], ApplicableOnly(inclusion, exclusions[..n]), exclusions[n]);
      } else {
        assert ApplicableOnly(inclusion, exclusions[..n + 1]) == ApplicableOnly(inclusion, exclusions[..n]);
      }
      CarveNothingMore(inclusion, exclusions, n + 1);
    }
  }
}
