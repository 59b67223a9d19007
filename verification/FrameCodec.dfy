/** The 32-byte frame header of the shared-memory lanes and its checksum. */
module FrameCodec {
  import opened Lists
  import opened Words

  type Byte = b: int | 0 <= b < 256
  type U32 = x: int | 0 <= x < 0x1_0000_0000
  type U64 = x: int | 0 <= x < 0x1_0000_0000_0000_0000

  const FRAME_HEADER_SIZE := 32
  const FRAME_MAGIC: U32 := 0x4841_4E59
  const PROTOCOL_VERSION: U32 := 3
  const CHECKSUM_SEED: U32 := 0x811c_9dc5
  const CHECKSUM_PRIME := 0x0100_0193

  // ---- checksum ----

  /** Exclusive or of the low `n` bits. */
  function Xor(a: nat, b: nat, n: nat): (r: nat)
    ensures r < Pow2(n)
  {
    if n == 0 then 0 else (a % 2 + b % 2) % 2 + 2 * Xor(a / 2, b / 2, n - 1)
  }

  lemma {:induction false} XorInjective(a: nat, c: nat, b: nat, n: nat)
    requires a < Pow2(n) && c < Pow2(n)
    requires Xor(a, b, n) == Xor(c, b, n)
    ensures a == c
  {
    if n > 0 {
      assert a == a % 2 + 2 * (a / 2) && c == c % 2 + 2 * (c / 2);
      XorInjective(a / 2, c / 2, b / 2, n - 1);
    }
  }

  lemma {:induction false} XorCommutes(a: nat, b: nat, n: nat)
    ensures Xor(a, b, n) == Xor(b, a, n)
  {
    if n > 0 {
      XorCommutes(a / 2, b / 2, n - 1);
    }
  }

  /** Bit `i` of the result is set exactly when one of the two bits is. */
  lemma {:induction false} XorBits(a: nat, b: nat, n: nat, i: nat)
    requires i < n
    ensures Bits(Xor(a, b, n), n)[i] <==> Bits(a, n)[i] != Bits(b, n)[i]
  {
    var half := Xor(a / 2, b / 2, n - 1);
    assert Xor(a, b, n) / 2 == half && Xor(a, b, n) % 2 == (a % 2 + b % 2) % 2;
    if i < n - 1 {
      XorBits(a / 2, b / 2, n - 1, i);
      assert Bits(Xor(a, b, n), n)[i] == Bits(half, n - 1)[i];
    }
  }

  function Product(hash: U32): U32 {
    hash * CHECKSUM_PRIME % 0x1_0000_0000
  }

  /** `hash.wrapping_mul(prime) ^ byte`: the byte meets the low eight bits only. */
  function ChecksumStep(hash: U32, byte: Byte): (r: U32) {
    Pow2Of8();
    ReplaceLowByte(Product(hash), Xor(Product(hash) % 256, byte, 8))
  }

  function ReplaceLowByte(word: U32, low: nat): (r: U32)
    requires low < 256
    ensures r / 256 == word / 256 && r % 256 == low
  {
    word - word % 256 + low
  }

  function ChecksumFrom(hash: U32, bytes: seq<Byte>): U32
    decreases |bytes|
  {
    if bytes == [] then hash else ChecksumFrom(ChecksumStep(hash, bytes[0]), bytes[1..])
  }

  function Checksum(bytes: seq<Byte>): U32 {
    ChecksumFrom(CHECKSUM_SEED, bytes)
  }

  /** Two known checksums: of nothing, and of the letter a. */
  lemma KnownChecksums()
    ensures Checksum([]) == 0x811c_9dc5
    ensures Checksum([97]) == 0x050c_5d7e
  {
    assert Xor(0, 0, 1) == 0 && Xor(0, 1, 2) == 1 && Xor(0, 3, 3) == 3;
    assert Xor(1, 6, 4) == 7 && Xor(3, 12, 5) == 15 && Xor(7, 24, 6) == 31 && Xor(15, 48, 7) == 63;
    assert Xor(0x1f, 97, 8) == 0x7e;
    assert Product(CHECKSUM_SEED) == 0x050c_5d1f;
    assert [97][1..] == [];
  }

  /** The prime is odd, so multiplication by it can be undone. */
  lemma ProductInverse(a: U32)
    ensures Product(a) * 899433627 % 0x1_0000_0000 == a
  {
    var q := a * CHECKSUM_PRIME / 0x1_0000_0000;
    assert Product(a) == a * CHECKSUM_PRIME - q * 0x1_0000_0000;
    assert Product(a) * 899433627 == a + 0x1_0000_0000 * (3513497 * a - q * 899433627);
  }

  /** Each step is injective in the 32-bit state. */
  lemma StepInjectiveInState(g: U32, h: U32, byte: Byte)
    requires ChecksumStep(g, byte) == ChecksumStep(h, byte)
    ensures g == h
  {
    hide Product, Xor, ReplaceLowByte;
    Pow2Of8();
    SplitLowByte(Product(g), Product(h), byte, byte);
    XorInjective(Product(g) % 256, Product(h) % 256, byte, 8);
    ProductInverse(g);
    ProductInverse(h);
  }

  /** Each step is injective in the byte. */
  lemma StepInjectiveInByte(hash: U32, x: Byte, y: Byte)
    requires ChecksumStep(hash, x) == ChecksumStep(hash, y)
    ensures x == y
  {
    Pow2Of8();
    SplitLowByte(Product(hash), Product(hash), x, y);
    XorCommutes(Product(hash) % 256, x, 8);
    XorCommutes(Product(hash) % 256, y, 8);
    XorInjective(x, y, Product(hash) % 256, 8);
  }

  lemma SplitLowByte(p: U32, q: U32, x: Byte, y: Byte)
    requires Xor(p % 256, x, 8) < 256 && Xor(q % 256, y, 8) < 256
    requires ReplaceLowByte(p, Xor(p % 256, x, 8)) == ReplaceLowByte(q, Xor(q % 256, y, 8))
    ensures p / 256 == q / 256 && Xor(p % 256, x, 8) == Xor(q % 256, y, 8)
  {
    hide ReplaceLowByte, Xor;
  }

  lemma {:induction false} ChecksumInjectiveState(g: U32, h: U32, bytes: seq<Byte>)
    requires ChecksumFrom(g, bytes) == ChecksumFrom(h, bytes)
    ensures g == h
    decreases |bytes|
  {
    if bytes != [] {
      ChecksumInjectiveState(ChecksumStep(g, bytes[0]), ChecksumStep(h, bytes[0]), bytes[1..]);
      StepInjectiveInState(g, h, bytes[0]);
    }
  }

  /** Changing exactly one byte always changes the checksum. */
  lemma {:induction false} OneByteChangesChecksum(hash: U32, bytes: seq<Byte>, k: nat, byte: Byte)
    requires k < |bytes| && byte != bytes[k]
    ensures ChecksumFrom(hash, bytes[k := byte]) != ChecksumFrom(hash, bytes)
    decreases |bytes|
  {
    var other := bytes[k := byte];
    if k == 0 {
      assert other[1..] == bytes[1..];
      var g, h := ChecksumStep(hash, byte), ChecksumStep(hash, bytes[0]);
      if ChecksumFrom(g, bytes[1..]) == ChecksumFrom(h, bytes[1..]) {
        ChecksumInjectiveState(g, h, bytes[1..]);
        StepInjectiveInByte(hash, byte, bytes[0]);
      }
    } else {
      assert other[1..] == bytes[1..][k - 1 := byte] && other[0] == bytes[0];
      OneByteChangesChecksum(ChecksumStep(hash, bytes[0]), bytes[1..], k - 1, byte);
    }
  }

  // ---- little-endian integers ----

  function LittleEndian(value: nat, width: nat): (bytes: seq<Byte>)
    ensures |bytes| == width
  {
    if width == 0 then [] else [value % 256] + LittleEndian(value / 256, width - 1)
  }

  function ReadInteger(bytes: seq<Byte>): nat {
    if bytes == [] then 0 else bytes[0] + 256 * ReadInteger(bytes[1..])
  }

  function Pow256(n: nat): (p: nat)
    ensures p > 0
  {
    if n == 0 then 1 else 256 * Pow256(n - 1)
  }

  lemma {:induction false} IntegerRoundTrip(value: nat, width: nat)
    requires value < Pow256(width)
    ensures ReadInteger(LittleEndian(value, width)) == value
  {
    if width > 0 {
      IntegerRoundTrip(value / 256, width - 1);
      assert LittleEndian(value, width)[1..] == LittleEndian(value / 256, width - 1);
    }
  }

  lemma {:induction false} ReadInjective(a: seq<Byte>, b: seq<Byte>)
    requires |a| == |b| && ReadInteger(a) == ReadInteger(b)
    ensures a == b
  {
    if a != [] {
      ReadInjective(a[1..], b[1..]);
      assert a == [a[0]] + a[1..] && b == [b[0]] + b[1..];
    }
  }

  lemma Pow256Values()
    ensures Pow256(4) == 0x1_0000_0000 && Pow256(8) == 0x1_0000_0000_0000_0000
  {
    assert Pow256(2) == 0x1_0000;
    assert Pow256(4) == 0x1_0000 * 0x1_0000;
    assert Pow256(6) == 256 * (256 * Pow256(4));
    assert Pow256(8) == 256 * (256 * Pow256(6));
  }

  lemma WordRoundTrip(value: U32)
    ensures ReadInteger(LittleEndian(value, 4)) == value
  {
    Pow256Values();
    IntegerRoundTrip(value, 4);
  }

  lemma GenerationRoundTrip(value: U64)
    ensures ReadInteger(LittleEndian(value, 8)) == value
  {
    Pow256Values();
    IntegerRoundTrip(value, 8);
  }

  // ---- the header ----

  function Zeros(n: nat): (z: seq<Byte>)
    ensures |z| == n && forall i | 0 <= i < n :: z[i] == 0
  {
    seq(n, _ => 0)
  }

  datatype FrameHeader = FrameHeader(generation: nat, contentLength: nat, contentChecksum: nat)

  function EncodeFields(generation: U64, content: seq<Byte>): (fields: seq<Byte>)
    requires |content| < 0x1_0000_0000
    ensures |fields| == 24
  {
    LittleEndian(FRAME_MAGIC, 4) + LittleEndian(PROTOCOL_VERSION, 4) + LittleEndian(generation, 8)
    + LittleEndian(|content|, 4) + LittleEndian(Checksum(content), 4)
  }

  function EncodeHeader(generation: U64, content: seq<Byte>): (header: seq<Byte>)
    requires |content| < 0x1_0000_0000
    ensures |header| == FRAME_HEADER_SIZE
  {
    var fields := EncodeFields(generation, content);
    fields + LittleEndian(Checksum(fields), 4) + Zeros(4)
  }

  function ParseHeader(bytes: seq<Byte>, slotSize: nat): (header: Option<FrameHeader>)
    requires slotSize >= FRAME_HEADER_SIZE
    ensures header.Some? ==> header.value.contentLength <= slotSize - FRAME_HEADER_SIZE
  {
    if || |bytes| != FRAME_HEADER_SIZE
       || ReadInteger(bytes[0..4]) != FRAME_MAGIC
       || ReadInteger(bytes[4..8]) != PROTOCOL_VERSION
       || ReadInteger(bytes[24..28]) != Checksum(bytes[..24])
    then None
    else
      var contentLength := ReadInteger(bytes[16..20]);
      if contentLength > slotSize - FRAME_HEADER_SIZE then None
      else Some(FrameHeader(ReadInteger(bytes[8..16]), contentLength, ReadInteger(bytes[20..24])))
  }

  lemma HeaderSlices(generation: U64, content: seq<Byte>)
    requires |content| < 0x1_0000_0000
    ensures var header := EncodeHeader(generation, content);
      && header[..24] == EncodeFields(generation, content)
      && header[0..4] == LittleEndian(FRAME_MAGIC, 4)
      && header[4..8] == LittleEndian(PROTOCOL_VERSION, 4)
      && header[8..16] == LittleEndian(generation, 8)
      && header[16..20] == LittleEndian(|content|, 4)
      && header[20..24] == LittleEndian(Checksum(content), 4)
      && header[24..28] == LittleEndian(Checksum(EncodeFields(generation, content)), 4)
  {
    hide LittleEndian, Checksum, Zeros;
  }

  /** Four bytes, from the low one up. */
  function LowFirst(value: nat): seq<int> {
    [value % 256, value / 0x100 % 256, value / 0x1_0000 % 256, value / 0x100_0000 % 256]
  }

  /** The bytes of a header: the magic and the version, then generation, length and the
      content's checksum from their low byte up, the checksum of these 24 bytes, and
      four zeros. */
  lemma HeaderLayout(generation: U64, content: seq<Byte>)
    requires |content| < 0x1_0000_0000
    ensures var header := EncodeHeader(generation, content);
      && header[0..8] == [0x59, 0x4e, 0x41, 0x48, 3, 0, 0, 0]
      && header[8..12] == LowFirst(generation) && header[12..16] == LowFirst(generation / 0x1_0000_0000)
      && header[16..20] == LowFirst(|content|) && header[20..24] == LowFirst(Checksum(content))
      && header[24..28] == LowFirst(Checksum(header[..24])) && header[28..32] == [0, 0, 0, 0]
  {
    hide Checksum, LittleEndian, LowFirst;
    var header := EncodeHeader(generation, content);
    HeaderSlices(generation, content);
    FixedBytes();
    assert header[0..8] == header[0..4] + header[4..8];
    EightBytes(generation);
    assert header[8..12] == header[8..16][..4] && header[12..16] == header[8..16][4..];
    FourBytes(|content|);
    FourBytes(Checksum(content));
    FourBytes(Checksum(header[..24]));
    assert header[28..32] == Zeros(4);
  }

  lemma FourBytes(value: nat)
    ensures LittleEndian(value, 4) == LowFirst(value)
  {
    assert LittleEndian(value / 256 / 256, 2) == [value / 0x1_0000 % 256, value / 0x100_0000 % 256];
    assert LittleEndian(value / 256, 3) == [value / 256 % 256] + LittleEndian(value / 256 / 256, 2);
  }

  lemma EightBytes(value: nat)
    ensures LittleEndian(value, 8)[..4] == LowFirst(value) && LittleEndian(value, 8)[4..] == LowFirst(value / 0x1_0000_0000)
  {
    FourBytes(value);
    FourBytes(value / 0x1_0000_0000);
    hide LowFirst;
    LowBytes(value, 8, 4);
    var v1, v2, v3, v4 := value / 256, value / 256 / 256, value / 256 / 256 / 256, value / 256 / 256 / 256 / 256;
    assert v4 == value / 0x1_0000_0000;
    assert LittleEndian(value, 8)[1..] == LittleEndian(v1, 7) && LittleEndian(v1, 7)[1..] == LittleEndian(v2, 6);
    assert LittleEndian(v2, 6)[1..] == LittleEndian(v3, 5) && LittleEndian(v3, 5)[1..] == LittleEndian(v4, 4);
    hide LittleEndian;
    assert LittleEndian(value, 8)[4..] == LittleEndian(value, 8)[1..][1..][1..][1..];
  }

  lemma {:induction false} LowBytes(value: nat, width: nat, k: nat)
    requires k <= width
    ensures LittleEndian(value, width)[..k] == LittleEndian(value, k)
  {
    if k > 0 {
      LowBytes(value / 256, width - 1, k - 1);
      assert LittleEndian(value, width)[..k] == [value % 256] + LittleEndian(value / 256, width - 1)[..k - 1];
    }
  }

  lemma FixedBytes()
    ensures LittleEndian(FRAME_MAGIC, 4) == [0x59, 0x4e, 0x41, 0x48] && LittleEndian(PROTOCOL_VERSION, 4) == [3, 0, 0, 0]
  {
    assert LittleEndian(0x4841, 2) == [0x41, 0x48] && LittleEndian(0, 2) == [0, 0];
    assert LittleEndian(0x48_414e, 3) == [0x4e, 0x41, 0x48] && LittleEndian(0, 3) == [0, 0, 0];
  }

  /** An unmodified header parses back to what the writer encoded. */
  lemma HeaderRoundTrip(generation: U64, content: seq<Byte>, slotSize: nat)
    requires FRAME_HEADER_SIZE + |content| <= slotSize < 0x1_0000_0000
    ensures ParseHeader(EncodeHeader(generation, content), slotSize)
         == Some(FrameHeader(generation, |content|, Checksum(content)))
  {
    var header := EncodeHeader(generation, content);
    HeaderSlices(generation, content);
    assert ReadInteger(header[0..4]) == FRAME_MAGIC by { WordRoundTrip(FRAME_MAGIC); }
    assert ReadInteger(header[4..8]) == PROTOCOL_VERSION by { WordRoundTrip(PROTOCOL_VERSION); }
    assert ReadInteger(header[8..16]) == generation by { GenerationRoundTrip(generation); }
    assert ReadInteger(header[16..20]) == |content| by { WordRoundTrip(|content|); }
    assert ReadInteger(header[20..24]) == Checksum(content) by { WordRoundTrip(Checksum(content)); }
    assert ReadInteger(header[24..28]) == Checksum(header[..24]) by {
      WordRoundTrip(Checksum(EncodeFields(generation, content)));
    }
    ParseFields(header, slotSize, generation, |content|, Checksum(content));
  }

  lemma ParseFields(header: seq<Byte>, slotSize: nat, generation: nat, length: nat, sum: nat)
    requires |header| == FRAME_HEADER_SIZE && FRAME_HEADER_SIZE + length <= slotSize
    requires ReadInteger(header[0..4]) == FRAME_MAGIC && ReadInteger(header[4..8]) == PROTOCOL_VERSION
    requires ReadInteger(header[8..16]) == generation && ReadInteger(header[16..20]) == length
    requires ReadInteger(header[20..24]) == sum && ReadInteger(header[24..28]) == Checksum(header[..24])
    ensures ParseHeader(header, slotSize) == Some(FrameHeader(generation, length, sum))
  {
  }

  /** Any one-byte change in the first 28 bytes of a valid header is rejected. */
  lemma HeaderTamper(bytes: seq<Byte>, slotSize: nat, k: nat, byte: Byte)
    requires slotSize >= FRAME_HEADER_SIZE && ParseHeader(bytes, slotSize).Some?
    requires k < 28 && byte != bytes[k]
    ensures ParseHeader(bytes[k := byte], slotSize).None?
  {
    var other := bytes[k := byte];
    if k < 24 {
      OneByteChangesChecksum(CHECKSUM_SEED, bytes[..24], k, byte);
      assert other[..24] == bytes[..24][k := byte];
      assert other[24..28] == bytes[24..28];
    } else {
      assert other[..24] == bytes[..24];
      assert other[24..28][k - 24] != bytes[24..28][k - 24];
      if ReadInteger(other[24..28]) == ReadInteger(bytes[24..28]) {
        ReadInjective(other[24..28], bytes[24..28]);
      }
    }
  }
}
