/** IPv4 routes as text: masks in either notation, the normalizing printer, and the
    strict parser that reads its output back. */
module CidrText {
  import opened Lists
  import opened Strings
  import opened Words
  import opened IpPrefixes

  // ---- octets and words ----

  /** Four octets, as `u32::from_be_bytes` and `to_be_bytes` relate them to a word. */
  predicate Octets(o: seq<nat>) {
    |o| == 4 && forall i | 0 <= i < 4 :: o[i] <= 255
  }

  function WordOf(o: seq<nat>): (w: Word)
    requires Octets(o)
    ensures |w| == 32
  {
    FromOctets(o[0], o[1], o[2], o[3])
  }

  function OctetsOf(w: Word): (o: seq<nat>)
    requires |w| == 32
    ensures Octets(o)
  {
    Pow2Of8();
    [Value(w[0..8]), Value(w[8..16]), Value(w[16..24]), Value(w[24..32])]
  }

  lemma WordRoundTrip(w: Word)
    requires |w| == 32
    ensures WordOf(OctetsOf(w)) == w
  {
    hide Bits, Value;
    assert w == w[0..8] + w[8..16] + w[16..24] + w[24..32];
    BitsOfValue(w[0..8]);
    BitsOfValue(w[8..16]);
    BitsOfValue(w[16..24]);
    BitsOfValue(w[24..32]);
  }

  // ---- masks ----

  function LeadingOnes(w: Word): (n: nat)
    ensures n <= |w| && (forall i | 0 <= i < n :: w[i]) && (n < |w| ==> !w[n])
  {
    if w == [] || !w[0] then 0 else 1 + LeadingOnes(w[1..])
  }

  function TrailingZeros(w: Word): (n: nat)
    ensures n <= |w| && (forall i | |w| - n <= i < |w| :: !w[i]) && (n < |w| ==> w[|w| - 1 - n])
  {
    if w == [] || w[|w| - 1] then 0 else 1 + TrailingZeros(w[..|w| - 1])
  }

  function MaskLength(w: Word): Option<nat> {
    if LeadingOnes(w) + TrailingZeros(w) == |w| || w == Zero(|w|) then Some(LeadingOnes(w)) else None
  }

  lemma {:induction false} OnesOfMask(w: Word, bits: nat)
    requires bits <= |w| && forall i | 0 <= i < |w| :: w[i] == (i < bits)
    ensures LeadingOnes(w) == bits
  {
    if bits > 0 {
      OnesOfMask(w[1..], bits - 1);
    }
  }

  lemma {:induction false} ZerosOfMask(w: Word, bits: nat)
    requires bits <= |w| && forall i | 0 <= i < |w| :: w[i] == (i < bits)
    ensures TrailingZeros(w) == |w| - bits
  {
    if bits < |w| {
      ZerosOfMask(w[..|w| - 1], bits);
    }
  }

  /** A value is accepted exactly when it is the prefix mask of the length returned. */
  lemma MaskLengthExact(w: Word, bits: nat)
    ensures MaskLength(w) == Some(bits) <==> bits <= |w| && w == PrefixMask(|w|, bits)
  {
    var ones, zeros := LeadingOnes(w), TrailingZeros(w);
    if MaskLength(w) == Some(bits) {
      if w != Zero(|w|) {
        forall i | 0 <= i < |w| ensures w[i] == PrefixMask(|w|, bits)[i] {
        }
      } else {
        forall i | 0 <= i < |w| ensures !w[i] {
          assert w[i] == Zero(|w|)[i];
        }
        assert bits == 0;
      }
      assert w == PrefixMask(|w|, bits);
    }
    if bits <= |w| && w == PrefixMask(|w|, bits) {
      OnesOfMask(w, bits);
      ZerosOfMask(w, bits);
    }
  }

  /** Octet texts, each read by `u8::from_str`. */
  function ParseOctets(parts: seq<string>): (o: Option<seq<nat>>)
    ensures o.Some? ==> |o.value| == |parts| && forall i | 0 <= i < |parts| :: ParseU8(parts[i]) == Some(o.value[i])
    ensures o.None? ==> exists i :: 0 <= i < |parts| && ParseU8(parts[i]) == None
  {
    if parts == [] then Some([])
    else
      var before, last := ParseOctets(parts[..|parts| - 1]), ParseU8(parts[|parts| - 1]);
      if before.Some? && last.Some? then Some(before.value + [last.value]) else None
  }

  function MaskWord(mask: string): (w: Option<Word>)
    ensures w.Some? ==> |w.value| == 32
  {
    var o := ParseOctets(Split(mask, '.'));
    if o.Some? && |o.value| == 4 then Some(WordOf(o.value)) else None
  }

  function NetmaskPrefix(mask: string): Option<nat> {
    if MaskWord(mask).Some? then MaskLength(MaskWord(mask).value) else None
  }

  /** The octets read so far, shifted in from the right. */
  function ShiftedIn(o: seq<nat>): (w: Word)
    requires |o| <= 4
    ensures |w| == 8 * |o|
  {
    if o == [] then [] else ShiftedIn(o[..|o| - 1]) + Bits(o[|o| - 1], 8)
  }

  lemma ShiftStep(o: seq<nat>, octet: nat)
    requires |o| < 4
    ensures ShiftedIn(o + [octet]) == ShiftedIn(o) + Bits(octet, 8)
    ensures Or(ShiftLeft(Zero(32 - 8 * |o|) + ShiftedIn(o), 8), Zero(24) + Bits(octet, 8))
         == Zero(24 - 8 * |o|) + ShiftedIn(o + [octet])
  {
    hide Bits;
    assert (o + [octet])[..|o|] == o;
    ShiftIn(ShiftedIn(o), Bits(octet, 8));
  }

  lemma ShiftIn(head: Word, tail: Word)
    requires |head| <= 24 && |tail| == 8
    ensures Or(ShiftLeft(Zero(32 - |head|) + head, 8), Zero(24) + tail) == Zero(24 - |head|) + (head + tail)
  {
    var shifted := ShiftLeft(Zero(32 - |head|) + head, 8);
    assert shifted == Zero(24 - |head|) + head + Zero(8);
    forall i | 0 <= i < 32 ensures (shifted[i] || (Zero(24) + tail)[i]) == (Zero(24 - |head|) + (head + tail))[i] {
    }
  }

  lemma ShiftedWord(o: seq<nat>)
    requires Octets(o)
    ensures ShiftedIn(o) == WordOf(o)
  {
    assert o[..3][..2][..1][..0] == [];
    assert ShiftedIn(o[..3][..2][..1]) == Bits(o[0], 8);
    assert ShiftedIn(o[..3][..2]) == Bits(o[0], 8) + Bits(o[1], 8);
    assert ShiftedIn(o[..3]) == Bits(o[0], 8) + Bits(o[1], 8) + Bits(o[2], 8);
  }

  method Ipv4NetmaskPrefix(mask: string) returns (bits: Option<nat>)
    ensures bits == NetmaskPrefix(mask)
  {
    hide ShiftedIn, ParseU8, Split, Bits;
    var parts := Split(mask, '.');
    var value := Zero(32);
    ghost var octets: seq<nat> := [];
    EmptyShift();
    for i := 0 to 4
      invariant |octets| == i <= |parts|
      invariant forall k | 0 <= k < i :: ParseU8(parts[k]) == Some(octets[k])
      invariant value == Zero(32 - 8 * i) + ShiftedIn(octets)
    {
      if i == |parts| {
        return None;
      }
      var octet := ParseU8(parts[i]);
      if octet.None? {
        return None;
      }
      ShiftStep(octets, octet.value);
      value := Or(ShiftLeft(value, 8), Zero(24) + Bits(octet.value, 8));
      octets := octets + [octet.value];
    }
    if |parts| > 4 {
      return None;
    }
    assert ParseOctets(parts) == Some(octets) by {
      assert ParseOctets(parts).Some? && ParseOctets(parts).value == octets;
    }
    assert Octets(octets);
    ShiftedWord(octets);
    assert value == WordOf(octets);
    var leading := LeadingOnes(value);
    var trailing := TrailingZeros(value);
    if leading + trailing == 32 || value == Zero(32) {
      return Some(leading);
    }
    return None;
  }

  lemma EmptyShift()
    ensures Zero(32) == Zero(32) + ShiftedIn([])
  {
  }

  // ---- the printer ----

  function PrintOctets(o: seq<nat>): string
    requires Octets(o)
  {
    Decimal(o[0]) + ['.'] + (Decimal(o[1]) + ['.'] + (Decimal(o[2]) + ['.'] + Decimal(o[3])))
  }

  function PrintV4(network: Word, bits: nat): string
    requires |network| == 32 && bits <= 32
  {
    PrintOctets(OctetsOf(network)) + ['/'] + Decimal(bits)
  }

  function Masked(w: Word, bits: nat): (m: Word)
    requires |w| == 32 && bits <= 32
    ensures |m| == 32 && forall i | 0 <= i < 32 :: m[i] == (i < bits && w[i])
  {
    if bits == 0 then Zero(32) else And(w, ShiftLeft(AllOnes(32), 32 - bits))
  }

  /** A host of up to four octets; what is missing at the end is zero. */
  function HostOctets(host: string): (o: Option<seq<nat>>)
    ensures o.Some? ==> Octets(o.value)
  {
    var o := ParseOctets(Split(host, '.'));
    if o.Some? && |o.value| <= 4 then Some(o.value + seq(4 - |o.value|, _ => 0)) else None
  }

  function NetworkCidr(host: string, bits: nat): Option<string> {
    if bits > 32 || HostOctets(host).None? then None
    else Some(PrintV4(Masked(WordOf(HostOctets(host).value), bits), bits))
  }

  method Ipv4NetworkCidr(host: string, bits: nat) returns (cidr: Option<string>)
    ensures cidr == NetworkCidr(host, bits)
  {
    hide ParseU8, Split, WordOf, PrintV4, Masked;
    if bits > 32 {
      return None;
    }
    var octets: seq<nat> := [0, 0, 0, 0];
    var parts := Split(host, '.');
    for i := 0 to |parts|
      invariant i <= 4 && |octets| == 4
      invariant forall k | 0 <= k < i :: ParseU8(parts[k]) == Some(octets[k])
      invariant forall k | i <= k < 4 :: octets[k] == 0
    {
      if i >= 4 {
        return None;
      }
      var part := ParseU8(parts[i]);
      if part.None? {
        return None;
      }
      octets := octets[i := part.value];
    }
    assert ParseOctets(parts).Some?;
    assert HostOctets(host).value == octets;
    return Some(PrintV4(Masked(WordOf(octets), bits), bits));
  }

  // ---- the normalizer ----

  /** `Six` stands for the branches that read IPv6 text. */
  datatype Normal = Refused | Six | Four(cidr: string)

  /** The strict address parser of the standard library. */
  predicate StrictOctet(s: string) {
    IsNumber(s) && |s| <= 3 && (|s| > 1 ==> s[0] != '0') && DigitsValue(s) <= 255
  }

  function StrictOctets(s: string): (o: Option<seq<nat>>)
    ensures o.Some? ==> Octets(o.value)
  {
    var parts := Split(s, '.');
    if |parts| == 4 && forall i | 0 <= i < 4 :: StrictOctet(parts[i]) then
      Some([DigitsValue(parts[0]), DigitsValue(parts[1]), DigitsValue(parts[2]), DigitsValue(parts[3])])
    else None
  }

  function PrefixLength(suffix: string): Option<nat> {
    if '.' in suffix then NetmaskPrefix(suffix)
    else if ParseU8(suffix).Some? && ParseU8(suffix).value <= 32 then ParseU8(suffix)
    else None
  }

  function NormalizeSplit(ip: string, suffix: string): Normal {
    if ip == "" then Refused
    else if ':' in ip then Six
    else if PrefixLength(suffix).None? then Refused
    else if NetworkCidr(ip, PrefixLength(suffix).value).None? then Refused
    else Four(NetworkCidr(ip, PrefixLength(suffix).value).value)
  }

  function NormalizeRouteCidr(text: string): Normal {
    var route := Trim(text);
    if route == "" then Refused
    else if SplitOnce(route, '/').Some? then
      var (ip, suffix) := SplitOnce(route, '/').value;
      NormalizeSplit(Trim(ip), Trim(suffix))
    else if ':' in route then Six
    else if StrictOctets(route).None? then Refused
    else Four(PrintV4(WordOf(StrictOctets(route).value), 32))
  }

  /** `IpPrefix::parse`, for IPv4 text. */
  function ParsePrefix(text: string): Option<IpPrefix> {
    var split := SplitOnce(Trim(text), '/');
    if split.None? || StrictOctets(split.value.0).None? then None
    else
      var bits := ParseU8(split.value.1);
      if bits.None? || bits.value > 32 then None
      else Some(IpPrefix(V4, And(WordOf(StrictOctets(split.value.0).value), PrefixMask(32, bits.value)), bits.value))
  }

  // ---- what the printer prints ----

  lemma DecimalIsPlain(n: nat)
    requires n <= 255
    ensures '.' !in Decimal(n) && '/' !in Decimal(n) && ':' !in Decimal(n)
    ensures StrictOctet(Decimal(n))
    ensures !IsSpace(Decimal(n)[0]) && !IsSpace(Decimal(n)[|Decimal(n)| - 1])
  {
    DecimalValue(n);
    hide Decimal, DigitsValue;
    forall k | 0 <= k < |Decimal(n)| ensures IsDigit(Decimal(n)[k]) {
    }
  }

  /** Text that neither trimming nor splitting at '/' or ':' touches. */
  predicate Tight(s: string) {
    s != [] && '/' !in s && ':' !in s && !IsSpace(s[0]) && !IsSpace(s[|s| - 1])
  }

  lemma TightJoin(a: string, b: string)
    requires Tight(a) && Tight(b)
    ensures Tight(a + ['.'] + b)
  {
    hide IsSpace;
    assert (a + ['.'] + b)[0] == a[0] && (a + ['.'] + b)[|a + ['.'] + b| - 1] == b[|b| - 1];
  }

  lemma UnsplitPlain(d: string)
    requires '.' !in d
    ensures Split(d, '.') == [d]
  {
  }

  lemma SplitTail(a: string, rest: string, parts: seq<string>)
    requires '.' !in a && Split(rest, '.') == parts
    ensures Split(a + ['.'] + rest, '.') == [a] + parts
  {
    hide Split;
    SplitAt(a, '.', rest);
  }

  lemma DottedSplit(a: string, b: string, c: string, d: string)
    requires '.' !in a && '.' !in b && '.' !in c && '.' !in d
    ensures Split(a + ['.'] + (b + ['.'] + (c + ['.'] + d)), '.') == [a] + ([b] + ([c] + [d]))
  {
    hide Split;
    UnsplitPlain(d);
    SplitTail(c, d, [d]);
    var cd := c + ['.'] + d;
    SplitTail(b, cd, [c] + [d]);
    var bcd := b + ['.'] + cd;
    SplitTail(a, bcd, [b] + ([c] + [d]));
  }

  lemma PrintedOctets(o: seq<nat>)
    requires Octets(o)
    ensures Split(PrintOctets(o), '.') == [Decimal(o[0]), Decimal(o[1]), Decimal(o[2]), Decimal(o[3])]
    ensures Tight(PrintOctets(o)) && '.' in PrintOctets(o)
  {
    hide Decimal, IsSpace, Split, StrictOctet;
    forall i | 0 <= i < 4 ensures Tight(Decimal(o[i])) && '.' !in Decimal(o[i]) {
      DecimalIsPlain(o[i]);
    }
    hide Tight;
    DottedSplit(Decimal(o[0]), Decimal(o[1]), Decimal(o[2]), Decimal(o[3]));
    TightJoin(Decimal(o[2]), Decimal(o[3]));
    TightJoin(Decimal(o[1]), Decimal(o[2]) + ['.'] + Decimal(o[3]));
    TightJoin(Decimal(o[0]), Decimal(o[1]) + ['.'] + (Decimal(o[2]) + ['.'] + Decimal(o[3])));
    assert PrintOctets(o)[|Decimal(o[0])|] == '.';
  }

  lemma OctetsParse(o: seq<nat>)
    requires Octets(o)
    ensures ParseOctets([Decimal(o[0]), Decimal(o[1]), Decimal(o[2]), Decimal(o[3])]) == Some(o)
  {
    hide Decimal, ParseU8;
    var parts := [Decimal(o[0]), Decimal(o[1]), Decimal(o[2]), Decimal(o[3])];
    forall i | 0 <= i < 4 ensures ParseU8(parts[i]) == Some(o[i]) {
      DecimalParses(o[i]);
    }
    assert ParseOctets(parts).Some? && ParseOctets(parts).value == o;
  }

  lemma OctetsParseStrictly(o: seq<nat>)
    requires Octets(o)
    ensures StrictOctets(PrintOctets(o)) == Some(o)
  {
    hide Decimal, Split, PrintOctets, DigitsValue, StrictOctet;
    PrintedOctets(o);
    forall i | 0 <= i < 4 ensures StrictOctet(Decimal(o[i])) && DigitsValue(Decimal(o[i])) == o[i] {
      DecimalIsPlain(o[i]);
      DecimalValue(o[i]);
    }
    assert o == [o[0], o[1], o[2], o[3]];
  }

  /** A printed route splits back into its address and its prefix length. */
  lemma PrintedRoute(network: Word, bits: nat)
    requires |network| == 32 && bits <= 32
    ensures Trim(PrintV4(network, bits)) == PrintV4(network, bits) != ""
    ensures SplitOnce(PrintV4(network, bits), '/') == Some((PrintOctets(OctetsOf(network)), Decimal(bits)))
    ensures Trim(PrintOctets(OctetsOf(network))) == PrintOctets(OctetsOf(network)) && Trim(Decimal(bits)) == Decimal(bits)
    ensures ParseU8(Decimal(bits)) == Some(bits) && '.' !in Decimal(bits)
  {
    hide Decimal, PrintOctets, OctetsOf, IsSpace, Trim, Split, StrictOctet;
    var o := OctetsOf(network);
    PrintedOctets(o);
    DecimalIsPlain(bits);
    DecimalParses(bits);
    SplitOnceAt(PrintOctets(o), '/', Decimal(bits));
    TrimOfTight(PrintOctets(o));
    TrimOfTight(Decimal(bits));
    TrimOfTight(PrintV4(network, bits));
  }

  // ---- the promises ----

  /** Every normalized IPv4 route is a printed prefix with zero host bits. */
  lemma NormalizedIsCanonical(text: string)
    ensures NormalizeRouteCidr(text).Four? ==>
              exists p: IpPrefix :: p.family.V4? && p.WellFormed() && NormalizeRouteCidr(text) == Four(PrintV4(p.network, p.bits))
  {
    hide PrintV4, WordOf, Split, Trim, ParseU8, StrictOctets, HostOctets, NetmaskPrefix;
    if NormalizeRouteCidr(text).Four? {
      var route := Trim(text);
      if SplitOnce(route, '/').Some? {
        var ip, suffix := Trim(SplitOnce(route, '/').value.0), Trim(SplitOnce(route, '/').value.1);
        NetmaskInRange(suffix);
        var bits := PrefixLength(suffix).value;
        var p := IpPrefix(V4, Masked(WordOf(HostOctets(ip).value), bits), bits);
        assert p.WellFormed() && NormalizeRouteCidr(text) == Four(PrintV4(p.network, p.bits));
      } else {
        var p := IpPrefix(V4, WordOf(StrictOctets(route).value), 32);
        assert p.WellFormed() && NormalizeRouteCidr(text) == Four(PrintV4(p.network, p.bits));
      }
    }
  }

  lemma NetmaskInRange(suffix: string)
    ensures PrefixLength(suffix).Some? ==> PrefixLength(suffix).value <= 32
  {
    hide ParseU8, Split, WordOf;
    if '.' in suffix && MaskWord(suffix).Some? && NetmaskPrefix(suffix).Some? {
      MaskLengthExact(MaskWord(suffix).value, NetmaskPrefix(suffix).value);
    }
  }

  /** The printed form of a prefix is its own normal form, and the strict parser
      reads the very prefix back: the second parse of the compiler cannot fail. */
  lemma PrintedIsFixedPoint(p: IpPrefix)
    requires p.family.V4? && p.WellFormed()
    ensures NormalizeRouteCidr(PrintV4(p.network, p.bits)) == Four(PrintV4(p.network, p.bits))
    ensures ParsePrefix(PrintV4(p.network, p.bits)) == Some(p)
  {
    hide PrintV4, PrintOctets, Decimal, Split, Trim, SplitOnce, StrictOctet, NetmaskPrefix, WordOf, OctetsOf;
    var text, o := PrintV4(p.network, p.bits), OctetsOf(p.network);
    PrintedRoute(p.network, p.bits);
    PrintedOctets(o);
    OctetsParse(o);
    OctetsParseStrictly(o);
    WordRoundTrip(p.network);
    assert o + seq(0, _ => 0) == o;
    assert HostOctets(PrintOctets(o)) == Some(o);
    assert Masked(p.network, p.bits) == p.network;
    assert And(p.network, PrefixMask(32, p.bits)) == p.network;
  }

  /** Normalizing is idempotent, and every normalized IPv4 route parses. */
  lemma NormalizingIsIdempotent(text: string)
    requires NormalizeRouteCidr(text).Four?
    ensures NormalizeRouteCidr(NormalizeRouteCidr(text).cidr) == NormalizeRouteCidr(text)
    ensures ParsePrefix(NormalizeRouteCidr(text).cidr).Some?
  {
    hide NormalizeRouteCidr, PrintV4, ParsePrefix;
    NormalizedIsCanonical(text);
    var p: IpPrefix :| p.family.V4? && p.WellFormed() && NormalizeRouteCidr(text) == Four(PrintV4(p.network, p.bits));
    PrintedIsFixedPoint(p);
  }

  /** Two prefixes print alike only when they are the same. */
  lemma PrintIsInjective(p: IpPrefix, q: IpPrefix)
    requires p.family.V4? && p.WellFormed() && q.family.V4? && q.WellFormed()
    requires PrintV4(p.network, p.bits) == PrintV4(q.network, q.bits)
    ensures p == q
  {
    hide PrintV4, ParsePrefix;
    PrintedIsFixedPoint(p);
    PrintedIsFixedPoint(q);
  }

  /** A dotted mask is accepted exactly when its value is the mask of the length
      returned. */
  lemma NetmaskExact(mask: string, bits: nat)
    ensures NetmaskPrefix(mask) == Some(bits) <==> bits <= 32 && MaskWord(mask) == Some(PrefixMask(32, bits))
  {
    hide MaskWord;
    if MaskWord(mask).Some? {
      MaskLengthExact(MaskWord(mask).value, bits);
    }
  }

  /** A dotted mask and its prefix length normalize alike, whatever the host. */
  lemma MaskAndLengthAlike(host: string, bits: nat)
    requires bits <= 32 && '/' !in host
    ensures NormalizeRouteCidr(host + ['/'] + PrintOctets(OctetsOf(PrefixMask(32, bits))))
         == NormalizeRouteCidr(host + ['/'] + Decimal(bits))
  {
    hide PrintOctets, Decimal, Split, Trim, TrimStart, SplitOnce, OctetsOf, WordOf, IsSpace, NetworkCidr, NetmaskPrefix, StrictOctets,
      StrictOctet, PrefixMask;
    var o := OctetsOf(PrefixMask(32, bits));
    var mask := PrintOctets(o);
    PrintedOctets(o);
    OctetsParse(o);
    WordRoundTrip(PrefixMask(32, bits));
    NetmaskExact(mask, bits);
    DecimalIsPlain(bits);
    DecimalParses(bits);
    TrimOfTight(mask);
    TrimOfTight(Decimal(bits));
    NormalizeAt(host, mask);
    NormalizeAt(host, Decimal(bits));
  }

  lemma NormalizeAt(host: string, suffix: string)
    requires '/' !in host && suffix != [] && !IsSpace(suffix[|suffix| - 1])
    ensures NormalizeRouteCidr(host + ['/'] + suffix) == NormalizeSplit(Trim(TrimStart(host)), Trim(suffix))
  {
    hide IsSpace, Trim, SplitOnce, NormalizeSplit;
    assert !IsSpace('/') by { SlashIsNoSpace(); }
    TrimHead(host, '/', suffix);
    TrimStartKeeps(host);
    SplitOnceAt(TrimStart(host), '/', suffix);
  }

  lemma SlashIsNoSpace()
    ensures !IsSpace('/')
  {
  }

  lemma {:induction false} TrimStartKeeps(s: string)
    requires '/' !in s
    ensures '/' !in TrimStart(s)
  {
    if s != [] && IsSpace(s[0]) {
      TrimStartKeeps(s[1..]);
    }
  }
}
