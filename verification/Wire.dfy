/**
 * The wire format: 20-byte IPv4 and TCP headers (section 3.1 of RFC 791 and of RFC 793), the
 * getters that read them from raw octets, and the values that writing them should produce.
 */
module Wire {
  import opened Words
  import opened Checksum

  // ------------------------------------------------------- octets and words

  function BE16(b: seq<u8>, at: nat): u16
    requires at + 2 <= |b|
  {
    Word(b[at], b[at + 1])
  }

  function BE32(b: seq<u8>, at: nat): u32
    requires at + 4 <= |b|
  {
    BE16(b, at) * 0x1_0000 + BE16(b, at + 2)
  }

  function Upper(w: u32): u16 {
    w / 0x1_0000
  }

  function Lower(w: u32): u16 {
    w % 0x1_0000
  }

  /** A 32-bit value in network order. */
  function Octets(w: u32): Quad {
    [High(Upper(w)), Low(Upper(w)), High(Lower(w)), Low(Lower(w))]
  }

  lemma Read16(b: seq<u8>, at: nat, w: u16)
    requires at + 2 <= |b| && b[at] == High(w) && b[at + 1] == Low(w)
    ensures BE16(b, at) == w
  {
    WordOfHighLow(w);
  }

  lemma Read32(b: seq<u8>, at: nat, w: u32)
    requires at + 4 <= |b| && b[at..at + 4] == Octets(w)
    ensures BE32(b, at) == w
  {
    assert b[at] == Octets(w)[0] && b[at + 1] == Octets(w)[1] && b[at + 2] == Octets(w)[2] && b[at + 3] == Octets(w)[3];
    Read16(b, at, Upper(w));
    Read16(b, at + 2, Lower(w));
    JoinHalves(w);
  }

  lemma JoinHalves(w: u32)
    ensures Upper(w) * 0x1_0000 + Lower(w) == w
  {
  }

  // ------------------------------------------------------- bit fields

  /** Control bit `bit` of the word that holds data offset, reserved bits and flags. */
  function Flag(word: bv16, bit: bv5): bool
    requires bit < 6
  {
    (word >> bit) & 1 == 1
  }

  function WithFlag(word: bv16, bit: bv5, on: bool): bv16
    requires bit < 6
  {
    var mask: bv16 := 1 << bit;
    if on then word | mask else word & !mask
  }

  function Offset(word: bv16): bv16 {
    word >> 12
  }

  function WithOffset(word: bv16, words: bv16): bv16 {
    (word & 0x0FFF) | ((words & 0xF) << 12)
  }

  /** Setting a control bit changes exactly that bit. */
  lemma FlagSetter(word: bv16, bit: bv5, on: bool, other: bv5)
    requires bit < 6 && other < 6
    ensures Flag(WithFlag(word, bit, on), other) == (if other == bit then on else Flag(word, other))
    ensures WithFlag(word, bit, on) >> 6 == word >> 6
  {
  }

  /** Setting the data offset changes exactly the top four bits. */
  lemma OffsetSetter(word: bv16, words: bv16)
    ensures Offset(WithOffset(word, words)) == words & 0xF
    ensures WithOffset(word, words) & 0x0FFF == word & 0x0FFF
  {
  }

  function Version(b: bv8): bv8 {
    b >> 4
  }

  function Ihl(b: bv8): bv8 {
    b & 0x0F
  }

  function WithVersion(b: bv8, version: bv8): bv8 {
    (b & 0x0F) | ((version & 0x0F) << 4)
  }

  function WithIhl(b: bv8, ihl: bv8): bv8 {
    (b & 0xF0) | (ihl & 0x0F)
  }

  function FragmentFlags(w: bv16): bv16 {
    w >> 13
  }

  function FragmentOffset(w: bv16): bv16 {
    w & 0x1FFF
  }

  function WithFragmentFlags(w: bv16, flags: bv16): bv16 {
    (w & 0x1FFF) | ((flags & 0x7) << 13)
  }

  function WithFragmentOffset(w: bv16, offset: bv16): bv16 {
    (w & 0xE000) | (offset & 0x1FFF)
  }

  /** The packed setters of the IPv4 header keep the neighbouring field. */
  lemma Ipv4Setters(b: bv8, v: bv8, w: bv16, x: bv16)
    ensures Version(WithVersion(b, v)) == v & 0x0F && Ihl(WithVersion(b, v)) == Ihl(b)
    ensures Ihl(WithIhl(b, v)) == v & 0x0F && Version(WithIhl(b, v)) == Version(b)
    ensures FragmentFlags(WithFragmentFlags(w, x)) == x & 0x7
    ensures FragmentOffset(WithFragmentFlags(w, x)) == FragmentOffset(w)
    ensures FragmentOffset(WithFragmentOffset(w, x)) == x & 0x1FFF
    ensures FragmentFlags(WithFragmentOffset(w, x)) == FragmentFlags(w)
  {
  }

  // ------------------------------------------------------- headers

  datatype TcpFields = TcpFields(
    sourcePort: u16, destPort: u16, seqNum: u32, ackNum: u32,
    control: u16, window: u16, checksum: u16, urgent: u16)

  datatype Ipv4Fields = Ipv4Fields(
    versionIhl: u8, typeOfService: u8, totalLength: u16, identification: u16, fragment: u16,
    ttl: u8, protocol: u8, checksum: u16, source: u32, destination: u32)

  /** Conversions between a field and its bits. */
  function Bits16(w: u16): bv16 {
    w as bv16
  }

  function Word16(w: bv16): u16 {
    w as int
  }

  function Bits8(b: u8): bv8 {
    b as bv8
  }

  function Byte8(b: bv8): u8 {
    b as int
  }

  /** `serialize`: the 20 octets of the packed structure. */
  function TcpBytes(f: TcpFields): (r: seq<u8>)
    ensures |r| == 20
  {
    [High(f.sourcePort), Low(f.sourcePort), High(f.destPort), Low(f.destPort)]
    + Octets(f.seqNum) + Octets(f.ackNum)
    + [High(f.control), Low(f.control), High(f.window), Low(f.window)]
    + [High(f.checksum), Low(f.checksum), High(f.urgent), Low(f.urgent)]
  }

  function Ipv4Bytes(f: Ipv4Fields): (r: seq<u8>)
    ensures |r| == 20
  {
    [f.versionIhl, f.typeOfService, High(f.totalLength), Low(f.totalLength)]
    + [High(f.identification), Low(f.identification), High(f.fragment), Low(f.fragment)]
    + [f.ttl, f.protocol, High(f.checksum), Low(f.checksum)]
    + Octets(f.source) + Octets(f.destination)
  }

  /** A segment as `TcpPacket::write` lays it out, its checksum computed over a zero field. */
  function TcpEncoded(f: TcpFields, src: Quad, dst: Quad, payload: seq<u8>): seq<u8>
    requires |payload| <= 65515
  {
    TcpBytes(f.(checksum := TcpChecksum(src, dst, TcpBytes(f.(checksum := 0)), payload))) + payload
  }

  /** A datagram as `IPv4Packet::write` lays it out, total length and checksum filled in. */
  function Ipv4Encoded(f: Ipv4Fields, payload: seq<u8>): seq<u8>
    requires |payload| <= 65515
  {
    var g := f.(totalLength := 20 + |payload|);
    Ipv4Bytes(g.(checksum := ChecksumOf(Ipv4Bytes(g.(checksum := 0))))) + payload
  }

  // ------------------------------------------------------- views

  function TcpHeaderLength(b: seq<u8>): nat
    requires |b| >= 20
  {
    Word16(Offset(Bits16(BE16(b, 12)))) * 4
  }

  /** `TcpPacketView::valid`. */
  predicate TcpValid(b: seq<u8>) {
    |b| >= 20 && 20 <= TcpHeaderLength(b) <= |b|
  }

  function TcpRead(b: seq<u8>): TcpFields
    requires |b| >= 20
  {
    TcpFields(BE16(b, 0), BE16(b, 2), BE32(b, 4), BE32(b, 8),
              BE16(b, 12), BE16(b, 14), BE16(b, 16), BE16(b, 18))
  }

  function TcpPayload(b: seq<u8>): seq<u8>
    requires TcpValid(b)
  {
    b[TcpHeaderLength(b)..]
  }

  function Ipv4HeaderLength(b: seq<u8>): nat
    requires |b| >= 20
  {
    Byte8(Ihl(Bits8(b[0]))) * 4
  }

  /** `IPv4PacketView::valid`. */
  predicate Ipv4Valid(b: seq<u8>) {
    && |b| >= 20
    && Version(Bits8(b[0])) == 4
    && Ipv4HeaderLength(b) <= BE16(b, 2) <= |b|
  }

  function Ipv4Read(b: seq<u8>): Ipv4Fields
    requires |b| >= 20
  {
    Ipv4Fields(b[0], b[1], BE16(b, 2), BE16(b, 4), BE16(b, 6),
               b[8], b[9], BE16(b, 10), BE32(b, 12), BE32(b, 16))
  }

  function Ipv4Payload(b: seq<u8>): seq<u8>
    requires Ipv4Valid(b)
  {
    b[Ipv4HeaderLength(b)..BE16(b, 2)]
  }

  // ------------------------------------------------------- round trips

  /** A field holds exactly the bits stored in it. */
  lemma BitsBack(w: bv16, b: bv8)
    ensures Bits16(Word16(w)) == w && Bits8(Byte8(b)) == b
  {
  }

  /** Reading what was serialized gives back every field, whatever follows the header. */
  lemma TcpHeaderRoundTrip(f: TcpFields, rest: seq<u8>)
    ensures TcpRead(TcpBytes(f) + rest) == f
  {
    var b := TcpBytes(f) + rest;
    Read16(b, 0, f.sourcePort);
    Read16(b, 2, f.destPort);
    Read32(b, 4, f.seqNum);
    Read32(b, 8, f.ackNum);
    Read16(b, 12, f.control);
    Read16(b, 14, f.window);
    Read16(b, 16, f.checksum);
    Read16(b, 18, f.urgent);
  }

  lemma Ipv4HeaderRoundTrip(f: Ipv4Fields, rest: seq<u8>)
    ensures Ipv4Read(Ipv4Bytes(f) + rest) == f
  {
    var b := Ipv4Bytes(f) + rest;
    Read16(b, 2, f.totalLength);
    Read16(b, 4, f.identification);
    Read16(b, 6, f.fragment);
    Read16(b, 10, f.checksum);
    Read32(b, 12, f.source);
    Read32(b, 16, f.destination);
  }

  /** Only the two checksum octets of a header depend on the checksum field. */
  lemma TcpChecksumField(f: TcpFields, c: u16)
    ensures TcpBytes(f.(checksum := c)) == WithWord(TcpBytes(f.(checksum := 0)), 16, c)
    ensures TcpBytes(f.(checksum := 0))[16] == TcpBytes(f.(checksum := 0))[17] == 0
  {
  }

  lemma Ipv4ChecksumField(f: Ipv4Fields, c: u16)
    ensures Ipv4Bytes(f.(checksum := c)) == WithWord(Ipv4Bytes(f.(checksum := 0)), 10, c)
    ensures Ipv4Bytes(f.(checksum := 0))[10] == Ipv4Bytes(f.(checksum := 0))[11] == 0
  {
  }

  /**
   * Every header with data offset 5 and every payload: the octets are a valid segment, the
   * view gives back every field and the payload, and the checksum verifies to 0.
   */
  lemma TcpRoundTrip(f: TcpFields, src: Quad, dst: Quad, payload: seq<u8>)
    requires Offset(Bits16(f.control)) == 5 && |payload| <= 65515
    ensures var b := TcpEncoded(f, src, dst, payload);
      && TcpValid(b)
      && TcpRead(b) == f.(checksum := TcpRead(b).checksum)
      && TcpPayload(b) == payload
      && TcpChecksum(src, dst, b[..20], b[20..]) == 0
  {
    var b := TcpEncoded(f, src, dst, payload);
    var zero := TcpBytes(f.(checksum := 0));
    var c := TcpChecksum(src, dst, zero, payload);
    TcpHeaderRoundTrip(f.(checksum := c), payload);
    TcpChecksumField(f, c);
    TcpSelfVerifies(src, dst, zero, payload);
    assert b[..20] == WithWord(zero, 16, c) && b[20..] == payload;
    assert BE16(b, 12) == TcpRead(b).control == f.control;
  }

  lemma Ipv4RoundTrip(f: Ipv4Fields, payload: seq<u8>)
    requires Version(Bits8(f.versionIhl)) == 4 && Ihl(Bits8(f.versionIhl)) == 5 && |payload| <= 65515
    ensures var b := Ipv4Encoded(f, payload);
      && Ipv4Valid(b)
      && Ipv4Read(b) == f.(totalLength := |b|, checksum := Ipv4Read(b).checksum)
      && Ipv4Payload(b) == payload
      && ChecksumOf(b[..20]) == 0
  {
    var b := Ipv4Encoded(f, payload);
    var g := f.(totalLength := 20 + |payload|);
    var zero := Ipv4Bytes(g.(checksum := 0));
    var c := ChecksumOf(zero);
    Ipv4HeaderRoundTrip(g.(checksum := c), payload);
    Ipv4ChecksumField(g, c);
    SelfVerifies(zero, 10);
    assert b[..20] == WithWord(zero, 10, c);
    assert b[0] == Ipv4Read(b).versionIhl == f.versionIhl && BE16(b, 2) == Ipv4Read(b).totalLength == |b|;
    assert b[20..|b|] == payload;
  }
}
