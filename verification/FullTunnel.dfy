/** The resumed session's route pipeline, end to end: network snapshot, forced
    default routes, DNS host routes, compilation. */
module FullTunnel {
  import opened Lists
  import opened Words
  import opened IpPrefixes
  import opened RouteFragments
  import opened RoutePolicy

  // ---- the policy, over its own fields ----

  /** The prefixes a route list names. */
  ghost function Listed(routes: seq<RouteText>): (prefixes: set<IpPrefix>)
    requires AllValid(routes)
    ensures SetWellFormed(prefixes)
  {
    set r | r in routes && r.Normalize().Some? :: r.Normalize().value
  }

  /** The host routes of the resolvers given as literal addresses. */
  ghost function Hosts(dns: seq<DnsServer>): (prefixes: set<IpPrefix>)
    requires AllServersValid(dns)
    ensures SetWellFormed(prefixes)
  {
    set d | d in dns && d.Some? :: IpPrefix(d.value.family, d.value.address, Width(d.value.family))
  }

  /** All IPv4 addresses, and all IPv6 addresses when the tunnel has one. */
  ghost function Everything(hasIpv6: bool): (prefixes: set<IpPrefix>)
    ensures SetWellFormed(prefixes)
  {
    {IpPrefix(V4, Zero(32), 0)} + if hasIpv6 then {IpPrefix(V6, Zero(128), 0)} else {}
  }

  /** The profile names networks of its own, in a mode that uses them. */
  ghost predicate Custom(policy: NetworkPolicy)
    requires policy.Valid()
  {
    !policy.forceGlobal && policy.splitMode != Auto && Listed(policy.customSplit) != {}
  }

  ghost predicate Full(policy: NetworkPolicy)
    requires policy.Valid()
  {
    policy.forceGlobal || (!Custom(policy) && Listed(policy.serverRoutes) == {})
  }

  /** Server excludes, and the local networks when they bypass a default route. */
  ghost function ExcludePrefixes(policy: NetworkPolicy): (prefixes: set<IpPrefix>)
    requires policy.Valid()
    ensures SetWellFormed(prefixes)
  {
    LocalNetworksWellFormed();
    Listed(policy.serverExcludes) + if policy.allowLocalLan && Full(policy) then ToSet(LocalNetworks()) else {}
  }

  /** Some include matches the address and every matching exclude is shorter. */
  ghost predicate Wins(includes: set<IpPrefix>, excludes: set<IpPrefix>, family: Family, address: Word)
    requires SetWellFormed(includes) && SetWellFormed(excludes) && |address| == Width(family)
  {
    exists i | i in includes && Matches(i, family, address) ::
      forall e | e in excludes && Matches(e, family, address) :: e.bits < i.bits
  }

  /** The result covers the policy: the routes that are left carry exactly the addresses
      of either family that win, and nothing is left when none wins. */
  ghost predicate CoversPolicy(result: RouteResult, routes: seq<RouteText>, includes: set<IpPrefix>, excludes: set<IpPrefix>)
    requires AllValid(routes) && SetWellFormed(includes) && SetWellFormed(excludes)
  {
    && !result.InvalidInclude? && !result.InvalidExclude?
    && (result.Done? ==>
          forall family: Family, address: Word | |address| == Width(family) ::
            Routed(Prefixes(routes), family, address) <==> Wins(includes, excludes, family, address))
    && (result.NothingRouted? ==>
          forall family: Family, address: Word | |address| == Width(family) :: !Wins(includes, excludes, family, address))
  }

  /** The longest-match order, on sets. */
  lemma WinsIsPolicy(includes: seq<IpPrefix>, excludes: seq<IpPrefix>, family: Family, address: Word)
    requires AllWellFormed(includes) && AllWellFormed(excludes) && |address| == Width(family)
    ensures PolicyIncludes(includes, excludes, family, address) <==> Wins(ToSet(includes), ToSet(excludes), family, address)
  {
    var longest, out := LongestMatch(includes, family, address), LongestMatch(excludes, family, address);
    if longest > out {
      var i :| i in includes && Matches(i, family, address) && i.bits == longest;
      assert i in ToSet(includes);
    }
    if Wins(ToSet(includes), ToSet(excludes), family, address) {
      var i :| i in ToSet(includes) && Matches(i, family, address)
               && forall e | e in ToSet(excludes) && Matches(e, family, address) :: e.bits < i.bits;
      if out != -1 {
        var e :| e in excludes && Matches(e, family, address) && e.bits == out;
        assert e in ToSet(excludes);
      }
    }
  }

  lemma ListedIsPrefixes(routes: seq<RouteText>)
    requires AllValid(routes)
    ensures Listed(routes) == ToSet(Prefixes(routes))
    ensures Listed(routes) == {} <==> Prefixes(routes) == []
  {
    forall p ensures p in Listed(routes) <==> p in Prefixes(routes) {
      PrefixesMembers(routes, p);
    }
    if Prefixes(routes) != [] {
      assert Prefixes(routes)[0] in Listed(routes);
    }
  }

  lemma HostsAreDns(dns: seq<DnsServer>, p: IpPrefix)
    requires AllServersValid(dns)
    ensures p in Hosts(dns) <==> DnsHost(dns, p)
  {
  }

  /** The include list before the DNS hosts are added. */
  ghost function BaseRoutes(policy: NetworkPolicy): seq<RouteText> {
    if policy.UsesDefault() then DefaultRoutes(policy.hasIpv6)
    else if policy.CustomRoutes() then Print(Prefixes(policy.customSplit))
    else Print(Prefixes(policy.serverRoutes))
  }

  /** The include and exclude lists that reach the compiler. */
  ghost function BuiltRoutes(policy: NetworkPolicy): seq<RouteText> {
    WithDnsRoutes(Normalized(WithDnsRoutes(BaseRoutes(policy), policy.TunnelDns())), policy.TunnelDns())
  }

  ghost function BuiltExcludes(policy: NetworkPolicy): seq<RouteText> {
    Normalized(ListedExcludes(policy))
  }

  ghost function Included(policy: NetworkPolicy): seq<IpPrefix> {
    Unique(Prefixes(BuiltRoutes(policy)))
  }

  /** They are the base and the literal hosts of the tunnel's resolvers. */
  lemma IncludedMembers(policy: NetworkPolicy, p: IpPrefix)
    ensures p in Included(policy) <==> p in Prefixes(BaseRoutes(policy)) || DnsHost(policy.TunnelDns(), p)
  {
    var base, dns := BaseRoutes(policy), policy.TunnelDns();
    assert AllCanonical(base);
    WithDnsRoutesPrefixes(base, dns, p);
    WithDnsRoutesPrefixes(Normalized(WithDnsRoutes(base, dns)), dns, p);
    NormalizedMembers(WithDnsRoutes(base, dns), p);
    CanonicalPrefixes(Normalized(WithDnsRoutes(base, dns)), p);
  }

  lemma BasePrefixes(policy: NetworkPolicy)
    requires policy.Valid()
    ensures policy.UsesDefault() == Full(policy) && policy.CustomRoutes() == Custom(policy)
    ensures ToSet(Prefixes(BaseRoutes(policy)))
         == if Full(policy) then Everything(policy.hasIpv6)
            else if Custom(policy) then Listed(policy.customSplit)
            else Listed(policy.serverRoutes)
  {
    ListedIsPrefixes(policy.customSplit);
    ListedIsPrefixes(policy.serverRoutes);
    PrefixesOfPrint(Prefixes(policy.customSplit));
    PrefixesOfPrint(Prefixes(policy.serverRoutes));
    forall p ensures p in Prefixes(DefaultRoutes(policy.hasIpv6)) <==> p in Everything(policy.hasIpv6) {
      CanonicalPrefixes(DefaultRoutes(policy.hasIpv6), p);
    }
  }

  /** What the five kinds of policy include and which resolvers they keep. */
  lemma IncludedByMode(policy: NetworkPolicy)
    requires policy.Valid()
    ensures AllWellFormed(Included(policy))
    ensures Full(policy) ==>
              policy.TunnelDns() == policy.dns && ToSet(Included(policy)) == Everything(policy.hasIpv6) + Hosts(policy.dns)
    ensures Custom(policy) && policy.splitMode == OnVpnDns ==>
              policy.TunnelDns() == policy.dns && ToSet(Included(policy)) == Listed(policy.customSplit) + Hosts(policy.dns)
    ensures Custom(policy) && policy.splitMode == OnUplinkDns ==>
              policy.TunnelDns() == [] && ToSet(Included(policy)) == Listed(policy.customSplit)
    ensures !Full(policy) && !Custom(policy) ==>
              policy.TunnelDns() == policy.dns && ToSet(Included(policy)) == Listed(policy.serverRoutes) + Hosts(policy.dns)
  {
    hide Listed, Included, BaseRoutes, Hosts, Everything, DnsHost;
    BasePrefixes(policy);
    var base := ToSet(Prefixes(BaseRoutes(policy)));
    forall p ensures p in Included(policy) <==> p in base || p in Hosts(policy.TunnelDns()) {
      IncludedMembers(policy, p);
      HostsAreDns(policy.TunnelDns(), p);
    }
    assert ToSet(Included(policy)) == base + Hosts(policy.TunnelDns());
    assert Hosts([]) == {} by { NoHosts(); }
    forall p | p in Included(policy) ensures p.WellFormed() {
      assert p in base || p in Hosts(policy.TunnelDns());
    }
  }

  lemma NoHosts()
    ensures Hosts([]) == {}
  {
  }

  ghost predicate Outside(excludes: set<IpPrefix>, address: Word)
    requires SetWellFormed(excludes) && |address| == 32
  {
    forall e | e in excludes :: !Matches(e, V4, address)
  }

  lemma NormalizedMembers(routes: seq<RouteText>, p: IpPrefix)
    ensures Canonical(p) in Normalized(routes) <==> p in Prefixes(routes)
  {
    var u := Unique(Prefixes(routes));
    if p in u {
      var i :| 0 <= i < |u| && u[i] == p;
      assert Normalized(routes)[i] == Canonical(p);
    }
    if Canonical(p) in Normalized(routes) {
      var i :| 0 <= i < |u| && Normalized(routes)[i] == Canonical(p);
      assert u[i] == p;
    }
  }

  ghost predicate AllCanonical(routes: seq<RouteText>) {
    forall r | r in routes :: r.Canonical?
  }

  lemma CanonicalPrefixes(routes: seq<RouteText>, p: IpPrefix)
    requires AllCanonical(routes)
    ensures p in Prefixes(routes) <==> Canonical(p) in routes
  {
    PrefixesMembers(routes, p);
    if p in Prefixes(routes) {
      var r :| r in routes && r.Normalize() == Some(p);
      assert r == Canonical(p);
    }
    if Canonical(p) in routes {
      assert Canonical(p).Normalize() == Some(p);
    }
  }

  lemma WithDnsRoutesCanonical(routes: seq<RouteText>, dns: seq<DnsServer>)
    requires AllCanonical(routes)
    ensures AllCanonical(WithDnsRoutes(routes, dns))
  {
    forall r | r in WithDnsRoutes(routes, dns) ensures r.Canonical? {
      DnsRoutesMembers(routes, dns, r);
    }
  }

  ghost predicate DnsHost(dns: seq<DnsServer>, p: IpPrefix) {
    exists d | d in dns :: d.Some? && p == d.value.HostPrefix()
  }

  /** Adding the DNS hosts to canonical routes adds exactly their prefixes. */
  lemma WithDnsRoutesPrefixes(routes: seq<RouteText>, dns: seq<DnsServer>, p: IpPrefix)
    requires AllCanonical(routes)
    ensures p in Prefixes(WithDnsRoutes(routes, dns)) <==> p in Prefixes(routes) || DnsHost(dns, p)
  {
    WithDnsRoutesCanonical(routes, dns);
    CanonicalPrefixes(routes, p);
    CanonicalPrefixes(WithDnsRoutes(routes, dns), p);
    DnsRoutesMembers(routes, dns, Canonical(p));
  }

  /** A full-length match is the host route itself. */
  lemma HostMatch(p: IpPrefix, address: Word)
    requires p.WellFormed() && |address| == 32
    ensures Matches(p, V4, address) && p.bits == 32 <==> p == IpPrefix(V4, address, 32)
  {
    if Matches(p, V4, address) && p.bits == 32 {
      assert address[..32] == address && p.network[..32] == p.network;
    }
  }

  lemma DnsLiteral(dns: seq<DnsServer>, address: Word)
    requires |address| == 32
    ensures DnsHost(dns, IpPrefix(V4, address, 32)) <==> Some(HostAddress(V4, address)) in dns
  {
    var host := HostAddress(V4, address);
    assert host.HostPrefix() == IpPrefix(V4, address, 32);
    if DnsHost(dns, IpPrefix(V4, address, 32)) {
      var d :| d in dns && d.Some? && IpPrefix(V4, address, 32) == d.value.HostPrefix();
      assert d.value == host;
    }
  }

  /** Compiling the normalized lists covers the sets they stand for. */
  lemma CompilesPolicy(includes: seq<IpPrefix>, excludes: seq<IpPrefix>, family: Family, address: Word)
    requires AllWellFormed(includes) && AllWellFormed(excludes) && |address| == Width(family)
    ensures Routed(Compiled(includes, excludes), family, address) <==> Wins(ToSet(includes), ToSet(excludes), family, address)
  {
    CompiledExact(includes, excludes, family, address);
    WinsIsPolicy(includes, excludes, family, address);
  }

  /** A full tunnel carries every IPv4 address outside the excludes, and each literal
      IPv4 resolver that is not itself excluded as a host. */
  lemma EverythingWins(dns: seq<DnsServer>, hasIpv6: bool, excludes: set<IpPrefix>, address: Word)
    requires AllServersValid(dns) && SetWellFormed(excludes) && |address| == 32
    ensures Wins(Everything(hasIpv6) + Hosts(dns), excludes, V4, address)
       <==> || Outside(excludes, address)
            || (Some(HostAddress(V4, address)) in dns && IpPrefix(V4, address, 32) !in excludes)
  {
    var includes := Everything(hasIpv6) + Hosts(dns);
    var all, host := IpPrefix(V4, Zero(32), 0), IpPrefix(V4, address, 32);
    assert all in includes && Matches(all, V4, address);
    HostMatch(host, address);
    forall e | e in excludes && Matches(e, V4, address) ensures e.bits <= 32 && (e.bits == 32 <==> e == host) {
      HostMatch(e, address);
    }
    DnsLiteral(dns, address);
    HostsAreDns(dns, host);
    if Wins(includes, excludes, V4, address) {
      var i :| i in includes && Matches(i, V4, address)
               && forall e | e in excludes && Matches(e, V4, address) :: e.bits < i.bits;
      if i in Hosts(dns) {
        HostMatch(i, address);
      }
    }
  }

  /** Full tunnel with LAN bypass, after the compilation: whichever list of includes
      stands for everything and the resolvers. */
  lemma FullTunnelCovers(includes: seq<IpPrefix>, dns: seq<DnsServer>, hasIpv6: bool, excludes: seq<IpPrefix>, address: Word)
    requires AllServersValid(dns) && AllWellFormed(includes) && AllWellFormed(excludes) && |address| == 32
    requires ToSet(includes) == Everything(hasIpv6) + Hosts(dns)
    ensures Routed(Compiled(includes, excludes), V4, address)
       <==> || Outside(ToSet(excludes), address)
            || (Some(HostAddress(V4, address)) in dns && IpPrefix(V4, address, 32) !in excludes)
  {
    CompilesPolicy(includes, excludes, V4, address);
    EverythingWins(dns, hasIpv6, ToSet(excludes), address);
    assert IpPrefix(V4, address, 32) in excludes <==> IpPrefix(V4, address, 32) in ToSet(excludes);
  }

  /** What the Extension does with the live network snapshot before it hands the
      configuration to the platform. A forced tunnel, and one with no usable list, takes
      every address and the server's resolvers; a list of the profile takes its own
      networks, with the server's resolvers or with none; otherwise the server's list
      and its resolvers count. The local networks stay outside a full tunnel only. */
  method ResumeRoutes(policy: NetworkPolicy) returns (options: VpnOptions, result: RouteResult)
    requires policy.Valid()
    ensures fresh(options) && options.Valid()
    ensures result.Done? ==> options.excludedRoutes == []
    ensures options.allowBypass == (policy.allowLocalLan && !Full(policy))
    ensures Full(policy) ==>
              && options.dnsAddresses == policy.dns
              && CoversPolicy(result, options.routes, Everything(policy.hasIpv6) + Hosts(policy.dns), ExcludePrefixes(policy))
    ensures !policy.forceGlobal && policy.splitMode == OnVpnDns && Listed(policy.customSplit) != {} ==>
              && options.dnsAddresses == policy.dns
              && CoversPolicy(result, options.routes, Listed(policy.customSplit) + Hosts(policy.dns), Listed(policy.serverExcludes))
    ensures !policy.forceGlobal && policy.splitMode == OnUplinkDns && Listed(policy.customSplit) != {} ==>
              && options.dnsAddresses == []
              && CoversPolicy(result, options.routes, Listed(policy.customSplit), Listed(policy.serverExcludes))
    ensures !policy.forceGlobal && (policy.splitMode == Auto || Listed(policy.customSplit) == {}) && Listed(policy.serverRoutes) != {} ==>
              && options.dnsAddresses == policy.dns
              && CoversPolicy(result, options.routes, Listed(policy.serverRoutes) + Hosts(policy.dns), Listed(policy.serverExcludes))
    ensures result.Done? && Full(policy) ==>
              forall address: Word | |address| == 32 ::
                Routed(Prefixes(options.routes), V4, address)
                <==> || Outside(ExcludePrefixes(policy), address)
                     || (Some(HostAddress(V4, address)) in policy.dns && IpPrefix(V4, address, 32) !in ExcludePrefixes(policy))
    ensures result.NothingRouted? && Full(policy) ==>
              forall address: Word | |address| == 32 ::
                && !Outside(ExcludePrefixes(policy), address)
                && (Some(HostAddress(V4, address)) in policy.dns ==> IpPrefix(V4, address, 32) in ExcludePrefixes(policy))
  {
    hide Listed, Everything, Hosts, Wins, Normalized, Compiled, LocalNetworks, CoversPolicy, ExcludePrefixes, BuiltRoutes, BuiltExcludes, Outside;
    options := PrepareRoutes(policy);
    PolicyCompiles(policy);
    result := options.MaterializeExcludedRoutes();
    CoveredByMode(policy, result, options.routes);
    if Full(policy) {
      FullCovers(policy, result, options.routes);
    }
  }

  /** What compiling the lists of a policy covers, mode by mode. */
  lemma CoveredByMode(policy: NetworkPolicy, result: RouteResult, routes: seq<RouteText>)
    requires policy.Valid() && AllValid(routes) && !result.InvalidInclude? && !result.InvalidExclude?
    requires AllWellFormed(Included(policy)) && AllWellFormed(Unique(Prefixes(BuiltExcludes(policy))))
    requires result.Done? ==> Prefixes(routes) == Compiled(Included(policy), Unique(Prefixes(BuiltExcludes(policy))))
    requires result.NothingRouted? ==> Compiled(Included(policy), Unique(Prefixes(BuiltExcludes(policy)))) == []
    ensures Full(policy) ==>
              && policy.TunnelDns() == policy.dns
              && CoversPolicy(result, routes, Everything(policy.hasIpv6) + Hosts(policy.dns), ExcludePrefixes(policy))
    ensures Custom(policy) && policy.splitMode == OnVpnDns ==>
              && policy.TunnelDns() == policy.dns
              && CoversPolicy(result, routes, Listed(policy.customSplit) + Hosts(policy.dns), Listed(policy.serverExcludes))
    ensures Custom(policy) && policy.splitMode == OnUplinkDns ==>
              && policy.TunnelDns() == []
              && CoversPolicy(result, routes, Listed(policy.customSplit), Listed(policy.serverExcludes))
    ensures !Full(policy) && !Custom(policy) ==>
              && policy.TunnelDns() == policy.dns
              && CoversPolicy(result, routes, Listed(policy.serverRoutes) + Hosts(policy.dns), Listed(policy.serverExcludes))
  {
    hide Listed, Everything, Hosts, Included, Wins, Compiled, LocalNetworks, BuiltExcludes;
    IncludedByMode(policy);
    PolicyCompiles(policy);
    if !Full(policy) {
      assert ExcludePrefixes(policy) == Listed(policy.serverExcludes);
    }
    assert CoversPolicy(result, routes, ToSet(Included(policy)), ExcludePrefixes(policy));
  }

  lemma FullCovers(policy: NetworkPolicy, result: RouteResult, routes: seq<RouteText>)
    requires policy.Valid() && AllValid(routes)
    requires CoversPolicy(result, routes, Everything(policy.hasIpv6) + Hosts(policy.dns), ExcludePrefixes(policy))
    ensures result.Done? ==>
              forall address: Word | |address| == 32 ::
                Routed(Prefixes(routes), V4, address)
                <==> || Outside(ExcludePrefixes(policy), address)
                     || (Some(HostAddress(V4, address)) in policy.dns && IpPrefix(V4, address, 32) !in ExcludePrefixes(policy))
    ensures result.NothingRouted? ==>
              forall address: Word | |address| == 32 ::
                && !Outside(ExcludePrefixes(policy), address)
                && (Some(HostAddress(V4, address)) in policy.dns ==> IpPrefix(V4, address, 32) in ExcludePrefixes(policy))
  {
    hide Everything, Hosts, Wins, LocalNetworks, ExcludePrefixes, Prefixes;
    forall address: Word | |address| == 32
      ensures Wins(Everything(policy.hasIpv6) + Hosts(policy.dns), ExcludePrefixes(policy), V4, address)
         <==> || Outside(ExcludePrefixes(policy), address)
              || (Some(HostAddress(V4, address)) in policy.dns && IpPrefix(V4, address, 32) !in ExcludePrefixes(policy))
    {
      EverythingWins(policy.dns, policy.hasIpv6, ExcludePrefixes(policy), address);
    }
  }

  /** Up to the compilation: the lists of the policy, with the resolvers' host routes. */
  method PrepareRoutes(policy: NetworkPolicy) returns (options: VpnOptions)
    requires policy.Valid()
    ensures fresh(options) && options.Valid()
    ensures options.routes == BuiltRoutes(policy) && options.excludedRoutes == BuiltExcludes(policy)
    ensures options.allowBypass == (policy.allowLocalLan && !Full(policy)) && options.dnsAddresses == policy.TunnelDns()
  {
    hide Listed, LocalNetworks;
    options := new VpnOptions.FromNetwork(policy);
    BasePrefixes(policy);
    ExcludesListed(policy);
    NormalizedFacts(ListedExcludes(policy));
    options.forceGlobal := policy.forceGlobal || options.forceGlobal;
    options.ApplyForceGlobal();
    options.PushDnsHostRoutes();
  }

  /** The lists that reach the compiler all normalize, and compiling them covers the
      sets they stand for. */
  lemma PolicyCompiles(policy: NetworkPolicy)
    requires policy.Valid()
    ensures AllNormalize(BuiltRoutes(policy)) && AllNormalize(BuiltExcludes(policy))
    ensures AllWellFormed(Included(policy)) && AllWellFormed(Unique(Prefixes(BuiltExcludes(policy))))
    ensures forall family: Family, address: Word | |address| == Width(family) ::
              Routed(Compiled(Included(policy), Unique(Prefixes(BuiltExcludes(policy)))), family, address)
              <==> Wins(ToSet(Included(policy)), ExcludePrefixes(policy), family, address)
  {
    hide Listed, Everything, Hosts, LocalNetworks, Wins, Compiled, Included;
    IncludedByMode(policy);
    ExcludesListed(policy);
    NormalizedNormalizes();
    DnsRoutesNormalize(Normalized(WithDnsRoutes(BaseRoutes(policy), policy.TunnelDns())), policy.TunnelDns());
    var excludes := Unique(Prefixes(BuiltExcludes(policy)));
    UniqueElements(Prefixes(BuiltExcludes(policy)));
    NormalizedFacts(ListedExcludes(policy));
    assert ToSet(excludes) == ExcludePrefixes(policy);
    forall p | p in excludes ensures p.WellFormed() {
      assert p in ToSet(excludes);
    }
    forall family: Family, address: Word | |address| == Width(family)
      ensures Routed(Compiled(Included(policy), excludes), family, address)
         <==> Wins(ToSet(Included(policy)), ExcludePrefixes(policy), family, address)
    {
      CompilesPolicy(Included(policy), excludes, family, address);
    }
  }

  lemma NormalizedNormalizes()
    ensures forall routes :: AllNormalize(Normalized(routes))
  {
  }

  /** Every text that normalizing prints, or that names a DNS host, normalizes. */
  lemma DnsRoutesNormalize(routes: seq<RouteText>, dns: seq<DnsServer>)
    requires AllNormalize(routes)
    ensures AllNormalize(WithDnsRoutes(routes, dns))
  {
    forall r | r in WithDnsRoutes(routes, dns) ensures r.Normalize().Some? {
      DnsRoutesMembers(routes, dns, r);
    }
  }

  ghost function ListedExcludes(policy: NetworkPolicy): seq<RouteText> {
    if policy.allowLocalLan && policy.UsesDefault()
    then WithLocalNetworks(Print(Prefixes(policy.serverExcludes)), LocalNetworks())
    else Print(Prefixes(policy.serverExcludes))
  }

  lemma ExcludesListed(policy: NetworkPolicy)
    requires policy.Valid()
    ensures AllValid(ListedExcludes(policy))
    ensures ToSet(Prefixes(Normalized(ListedExcludes(policy)))) == ExcludePrefixes(policy)
  {
    hide Bits, FromOctets, LocalNetworks;
    BasePrefixes(policy);
    ListedIsPrefixes(policy.serverExcludes);
    var listed := ListedExcludes(policy);
    LocalNetworksWellFormed();
    forall r | r in listed ensures r.Valid() && r.Canonical? {
      LocalNetworksMembers(Print(Prefixes(policy.serverExcludes)), LocalNetworks(), r);
    }
    NormalizedFacts(listed);
    forall p ensures p in Prefixes(listed) <==> p in ExcludePrefixes(policy) {
      PrefixesMembers(listed, p);
      LocalNetworksMembers(Print(Prefixes(policy.serverExcludes)), LocalNetworks(), Canonical(p));
      PrintMembers(Prefixes(policy.serverExcludes), p);
      assert p in Prefixes(listed) <==> Canonical(p) in listed;
    }
  }

  lemma PrintMembers(prefixes: seq<IpPrefix>, p: IpPrefix)
    ensures Canonical(p) in Print(prefixes) <==> p in prefixes
  {
    if p in prefixes {
      var i :| 0 <= i < |prefixes| && prefixes[i] == p;
      assert Print(prefixes)[i] == Canonical(p);
    }
  }

  // ---- the local networks ----

  lemma {:induction false} HighBits(n: nat, k: nat, m: nat)
    requires m < k
    ensures Bits(n, k)[..m] == Bits(n / 2, k - 1)[..m]
  {
  }

  lemma HighNibble(n: nat)
    ensures Bits(n, 8)[..4] == Bits(n / 16, 4)
  {
    HighBits(n, 8, 4);
    HighBits(n / 2, 7, 4);
    HighBits(n / 2 / 2, 6, 4);
    HighBits(n / 2 / 2 / 2, 5, 4);
    hide Bits;
    assert n / 2 / 2 / 2 / 2 == n / 16;
  }

  lemma {:induction false} BitsInjective(m: nat, n: nat, k: nat)
    requires m < Pow2(k) && n < Pow2(k)
    ensures Bits(m, k) == Bits(n, k) <==> m == n
  {
    if k > 0 {
      BitsInjective(m / 2, n / 2, k - 1);
      assert Bits(m, k)[..k - 1] == Bits(m / 2, k - 1) && Bits(n, k)[..k - 1] == Bits(n / 2, k - 1);
      assert Bits(m, k)[k - 1] == (m % 2 == 1) && Bits(n, k)[k - 1] == (n % 2 == 1);
    }
  }

  predicate Octet(n: nat) {
    n < 256
  }

  /** The local networks, by octets: 10.x.x.x, 172.16.x.x to 172.31.x.x, 192.168.x.x
      and 169.254.x.x, and no other address. */
  lemma LocalByOctets(a: nat, b: nat, c: nat, d: nat)
    requires Octet(a) && Octet(b) && Octet(c) && Octet(d)
    ensures AllWellFormed(LocalNetworks())
    ensures (exists lan | lan in LocalNetworks() :: Matches(lan, V4, FromOctets(a, b, c, d)))
       <==> || a == 10
            || (a == 172 && 16 <= b <= 31)
            || (a == 192 && b == 168)
            || (a == 169 && b == 254)
  {
    hide Bits;
    LocalNetworksWellFormed();
    var address, lans := FromOctets(a, b, c, d), LocalNetworks();
    Pow2Of8();
    FirstOctet(a, b, c, d, 10, 0);
    FirstHalf(a, b, c, d, 192, 168);
    FirstHalf(a, b, c, d, 169, 254);
    FirstTwelve(a, b, c, d);
    assert Matches(lans[0], V4, address) <==> a == 10;
    assert Matches(lans[1], V4, address) <==> a == 172 && 16 <= b <= 31;
    assert Matches(lans[2], V4, address) <==> a == 192 && b == 168;
    assert Matches(lans[3], V4, address) <==> a == 169 && b == 254;
    assert forall lan :: lan in lans <==> lan in {lans[0], lans[1], lans[2], lans[3]};
  }

  lemma FirstOctet(a: nat, b: nat, c: nat, d: nat, x: nat, y: nat)
    requires Octet(a) && Octet(x)
    ensures FromOctets(a, b, c, d)[..8] == FromOctets(x, y, 0, 0)[..8] <==> a == x
  {
    Pow2Of8();
    BitsInjective(a, x, 8);
    hide Bits;
    assert FromOctets(a, b, c, d)[..8] == Bits(a, 8) && FromOctets(x, y, 0, 0)[..8] == Bits(x, 8);
  }

  lemma FirstHalf(a: nat, b: nat, c: nat, d: nat, x: nat, y: nat)
    requires Octet(a) && Octet(b) && Octet(x) && Octet(y)
    ensures FromOctets(a, b, c, d)[..16] == FromOctets(x, y, 0, 0)[..16] <==> a == x && b == y
  {
    Pow2Of8();
    BitsInjective(a, x, 8);
    BitsInjective(b, y, 8);
    hide Bits;
    var u, v := FromOctets(a, b, c, d)[..16], FromOctets(x, y, 0, 0)[..16];
    assert u == Bits(a, 8) + Bits(b, 8) && v == Bits(x, 8) + Bits(y, 8);
    assert u[..8] == Bits(a, 8) && u[8..] == Bits(b, 8) && v[..8] == Bits(x, 8) && v[8..] == Bits(y, 8);
  }

  lemma FirstTwelve(a: nat, b: nat, c: nat, d: nat)
    requires Octet(a) && Octet(b)
    ensures FromOctets(a, b, c, d)[..12] == FromOctets(172, 16, 0, 0)[..12] <==> a == 172 && 16 <= b <= 31
  {
    Pow2Of8();
    assert Pow2(4) == 16;
    BitsInjective(a, 172, 8);
    HighNibble(b);
    HighNibble(16);
    BitsInjective(b / 16, 1, 4);
    hide Bits;
    var u, v := FromOctets(a, b, c, d)[..12], FromOctets(172, 16, 0, 0)[..12];
    assert u == Bits(a, 8) + Bits(b, 8)[..4] && v == Bits(172, 8) + Bits(16, 8)[..4];
    assert u[..8] == Bits(a, 8) && u[8..] == Bits(b, 8)[..4] && v[..8] == Bits(172, 8) && v[8..] == Bits(16, 8)[..4];
  }
}
