/** The mutable headers, the methods that fill output buffers, and whole packets on the wire. */
module Packets {
  import opened Words
  import opened Checksum
  import opened Wire

  // ------------------------------------------------------- mutable headers

  class TcpHeader {
    var sourcePort: u16
    var destPort: u16
    var seqNum: u32
    var ackNum: u32
    var control: u16
    var window: u16
    var checksum: u16
    var urgent: u16

    function Fields(): TcpFields
      reads this
    {
      TcpFields(sourcePort, destPort, seqNum, ackNum, control, window, checksum, urgent)
    }

    constructor (f: TcpFields)
      ensures Fields() == f
    {
      sourcePort, destPort, seqNum, ackNum := f.sourcePort, f.destPort, f.seqNum, f.ackNum;
      control, window, checksum, urgent := f.control, f.window, f.checksum, f.urgent;
    }

    method SetDataOffset(words: bv16)
      modifies this
      ensures Fields() == old(Fields()).(control := Word16(WithOffset(Bits16(old(control)), words)))
      ensures Offset(Bits16(control)) == words & 0xF
      ensures Bits16(control) & 0x0FFF == Bits16(old(control)) & 0x0FFF
    {
      OffsetSetter(Bits16(control), words);
      BitsBack(WithOffset(Bits16(control), words), 0);
      control := Word16(WithOffset(Bits16(control), words));
    }

    /** Sets or clears one control bit and leaves all others. */
    method SetFlag(bit: bv5, on: bool)
      requires bit < 6
      modifies this
      ensures Fields() == old(Fields()).(control := Word16(WithFlag(Bits16(old(control)), bit, on)))
      ensures Bits16(control) == WithFlag(Bits16(old(control)), bit, on)
      ensures forall other: bv5 | other < 6 ::
        Flag(Bits16(control), other) == (if other == bit then on else Flag(Bits16(old(control)), other))
    {
      var w := WithFlag(Bits16(control), bit, on);
      forall other: bv5 | other < 6
        ensures Flag(w, other) == (if other == bit then on else Flag(Bits16(control), other))
      {
        FlagSetter(Bits16(control), bit, on, other);
      }
      BitsBack(w, 0);
      control := Word16(w);
    }

    method SetChecksum(c: u16)
      modifies this
      ensures Fields() == old(Fields()).(checksum := c)
    {
      checksum := c;
    }
  }

  class Ipv4Header {
    var versionIhl: u8
    var typeOfService: u8
    var totalLength: u16
    var identification: u16
    var fragment: u16
    var ttl: u8
    var protocol: u8
    var checksum: u16
    var source: u32
    var destination: u32

    function Fields(): Ipv4Fields
      reads this
    {
      Ipv4Fields(versionIhl, typeOfService, totalLength, identification, fragment,
                 ttl, protocol, checksum, source, destination)
    }

    constructor (f: Ipv4Fields)
      ensures Fields() == f
    {
      versionIhl, typeOfService, totalLength := f.versionIhl, f.typeOfService, f.totalLength;
      identification, fragment, ttl, protocol := f.identification, f.fragment, f.ttl, f.protocol;
      checksum, source, destination := f.checksum, f.source, f.destination;
    }

    method SetVersion(version: bv8)
      modifies this
      ensures Fields() == old(Fields()).(versionIhl := Byte8(WithVersion(Bits8(old(versionIhl)), version)))
      ensures Version(Bits8(versionIhl)) == version & 0x0F && Ihl(Bits8(versionIhl)) == Ihl(Bits8(old(versionIhl)))
    {
      Ipv4Setters(Bits8(versionIhl), version, 0, 0);
      BitsBack(0, WithVersion(Bits8(versionIhl), version));
      versionIhl := Byte8(WithVersion(Bits8(versionIhl), version));
    }

    method SetIhl(ihl: bv8)
      modifies this
      ensures Fields() == old(Fields()).(versionIhl := Byte8(WithIhl(Bits8(old(versionIhl)), ihl)))
      ensures Ihl(Bits8(versionIhl)) == ihl & 0x0F && Version(Bits8(versionIhl)) == Version(Bits8(old(versionIhl)))
    {
      Ipv4Setters(Bits8(versionIhl), ihl, 0, 0);
      BitsBack(0, WithIhl(Bits8(versionIhl), ihl));
      versionIhl := Byte8(WithIhl(Bits8(versionIhl), ihl));
    }

    method SetFragmentOffset(offset: bv16)
      modifies this
      ensures Fields() == old(Fields()).(fragment := Word16(WithFragmentOffset(Bits16(old(fragment)), offset)))
      ensures FragmentOffset(Bits16(fragment)) == offset & 0x1FFF
      ensures FragmentFlags(Bits16(fragment)) == FragmentFlags(Bits16(old(fragment)))
    {
      Ipv4Setters(0, 0, Bits16(fragment), offset);
      BitsBack(WithFragmentOffset(Bits16(fragment), offset), 0);
      fragment := Word16(WithFragmentOffset(Bits16(fragment), offset));
    }

    method SetLengthAndChecksum(length: u16, c: u16)
      modifies this
      ensures Fields() == old(Fields()).(totalLength := length, checksum := c)
    {
      totalLength := length;
      checksum := c;
    }
  }

  // ------------------------------------------------------- writing into buffers

  /** `copy_n`: `src` goes to `out` from `at` on. */
  method CopyInto(src: seq<u8>, out: array<u8>, at: nat)
    requires at + |src| <= out.Length
    modifies out
    ensures out[..] == old(out[..at]) + src + old(out[at + |src|..])
  {
    var i := 0;
    while i < |src|
      invariant 0 <= i <= |src|
      invariant out[..at] == old(out[..at])
      invariant out[at..at + i] == src[..i]
      invariant out[at + i..] == old(out[at + i..])
    {
      out[at + i] := src[i];
      i := i + 1;
    }
    assert out[..] == out[..at] + out[at..at + |src|] + out[at + |src|..];
  }

  /** The header length that `write` uses: 20 when the field is 0. */
  function EffectiveLength(words: u16): nat {
    if words == 0 then 20 else words * 4
  }

  /**
   * A buffer after a header of `length` octets and a payload were written over `before`: the
   * 20 serialized octets, what the buffer held up to a longer header length, the payload.
   */
  function Filled(wire: seq<u8>, length: nat, payload: seq<u8>, before: seq<u8>): seq<u8>
    requires |wire| == 20 <= length && length + |payload| <= |before|
  {
    wire + before[20..length] + payload + before[length + |payload|..]
  }

  method Fill(wire: seq<u8>, length: nat, payload: seq<u8>, out: array<u8>)
    requires |wire| == 20 <= length && length + |payload| <= out.Length
    modifies out
    ensures out[..] == Filled(wire, length, payload, old(out[..]))
  {
    ghost var before := out[..];
    CopyInto(wire, out, 0);
    assert out[..] == wire + before[20..];
    CopyInto(payload, out, length);
    OverwrittenParts(wire, before, length, |payload|);
  }

  lemma OverwrittenParts(wire: seq<u8>, before: seq<u8>, length: nat, n: nat)
    requires |wire| == 20 <= length && length + n <= |before|
    ensures (wire + before[20..])[..length] == wire + before[20..length]
    ensures (wire + before[20..])[length + n..] == before[length + n..]
  {
    var whole := wire + before[20..];
    assert |whole| == |before|;
    forall i | 20 <= i < |before| ensures whole[i] == before[i] {}
  }

  // ------------------------------------------------------- segments

  /** The header as the checksumming `write` sends it, before its checksum. */
  function Sendable(f: TcpFields): TcpFields {
    (if Offset(Bits16(f.control)) == 0 then f.(control := Word16(WithOffset(Bits16(f.control), 5))) else f).(checksum := 0)
  }

  function TcpLength(f: TcpFields): nat {
    EffectiveLength(Word16(Offset(Bits16(f.control))))
  }

  /** The copy of the header that is completed and serialized. */
  method Prepare(header: TcpHeader) returns (hdr: TcpHeader)
    ensures fresh(hdr) && hdr.Fields() == Sendable(header.Fields())
  {
    hdr := new TcpHeader(header.Fields());
    if Offset(Bits16(hdr.control)) == 0 {
      BitsBack(WithOffset(Bits16(hdr.control), 5), 0);
      hdr.control := Word16(WithOffset(Bits16(hdr.control), 5));
    }
    hdr.SetChecksum(0);
  }

  /** The 20 octets of a segment's header with its checksum in place. */
  function TcpHeaderSent(f: TcpFields, src: Quad, dst: Quad, payload: seq<u8>): (r: seq<u8>)
    requires |payload| <= 65515
    ensures |r| == 20
  {
    TcpBytes(f.(checksum := TcpChecksum(src, dst, TcpBytes(f.(checksum := 0)), payload)))
  }

  /** The checksumming `TcpPacket::write`; the packet's own header is left as it was. */
  method WriteTcp(header: TcpHeader, payload: seq<u8>, out: array<u8>, src: Quad, dst: Quad) returns (n: nat)
    requires TcpLength(header.Fields()) >= 20
    requires out.Length <= 65535
    modifies out
    ensures header.Fields() == old(header.Fields())
    ensures var length := TcpLength(header.Fields());
      if length + |payload| > out.Length then n == 0 && out[..] == old(out[..])
      else
        && n == length + |payload|
        && out[..] == Filled(TcpHeaderSent(Sendable(header.Fields()), src, dst, payload), length, payload, old(out[..]))
  {
    var length := TcpLength(header.Fields());
    if out.Length < length + |payload| {
      return 0;
    }
    var hdr := Prepare(header);
    var c := ComputeTcpChecksum(src, dst, TcpBytes(hdr.Fields()), payload);
    hdr.SetChecksum(c);
    Fill(TcpBytes(hdr.Fields()), length, payload, out);
    return length + |payload|;
  }

  // ------------------------------------------------------- datagrams

  function Ipv4Length(f: Ipv4Fields): nat {
    EffectiveLength(Byte8(Ihl(Bits8(f.versionIhl))))
  }

  function Ipv4HeaderSent(f: Ipv4Fields, total: u16): (r: seq<u8>)
    ensures |r| == 20
  {
    var g := f.(totalLength := total);
    Ipv4Bytes(g.(checksum := ChecksumOf(Ipv4Bytes(g.(checksum := 0)))))
  }

  /** `IPv4Header::compute_checksum`: the checksum octets are zeroed in a serialized copy. */
  method ComputeIpv4Checksum(f: Ipv4Fields) returns (c: u16)
    ensures c == ChecksumOf(Ipv4Bytes(f.(checksum := 0)))
  {
    var wire := Ipv4Bytes(f);
    wire := wire[10 := 0][11 := 0];
    Ipv4ChecksumField(f, f.checksum);
    assert wire == Ipv4Bytes(f.(checksum := 0));
    c := OnesComplementChecksum(wire);
  }

  /** `IPv4Packet::write`; total length is stored as a 16-bit value. */
  method WriteIpv4(header: Ipv4Header, payload: seq<u8>, out: array<u8>) returns (n: nat)
    requires Ipv4Length(header.Fields()) >= 20
    modifies out
    ensures header.Fields() == old(header.Fields())
    ensures var length := Ipv4Length(header.Fields());
      if length + |payload| > out.Length then n == 0 && out[..] == old(out[..])
      else
        && n == length + |payload|
        && out[..] == Filled(Ipv4HeaderSent(header.Fields(), Wrap16(n)), length, payload, old(out[..]))
  {
    var length := Ipv4Length(header.Fields());
    var total := length + |payload|;
    if out.Length < total {
      return 0;
    }
    var hdr := new Ipv4Header(header.Fields());
    hdr.SetLengthAndChecksum(Wrap16(total), hdr.checksum);
    var c := ComputeIpv4Checksum(hdr.Fields());
    hdr.SetLengthAndChecksum(Wrap16(total), c);
    Fill(Ipv4Bytes(hdr.Fields()), length, payload, out);
    return total;
  }

  // ------------------------------------------------------- whole packets

  const BUFFER: nat := 65535

  /** The datagram that carries a segment: version 4, five words, TTL 255, protocol 6. */
  function Carrier(src: u32, dst: u32): Ipv4Fields {
    Ipv4Fields(0x45, 0, 0, 0, 0, 255, 6, 0, src, dst)
  }

  /** What `write_packet_` hands to the device for a header of five words. */
  function PacketBytes(src: u32, dst: u32, f: TcpFields, payload: seq<u8>): seq<u8>
    requires |payload| <= 65495
  {
    Ipv4Encoded(Carrier(src, dst), TcpEncoded(f, Octets(src), Octets(dst), payload))
  }

  /** The header set up field by field. */
  method BuildCarrier(src: u32, dst: u32) returns (h: Ipv4Header)
    ensures fresh(h) && h.Fields() == Carrier(src, dst)
  {
    h := new Ipv4Header(Ipv4Fields(0, 0, 0, 0, 0, 0, 0, 0, 0, 0));
    h.SetVersion(4);
    h.SetIhl(5);
    h.ttl := 255;
    h.source := src;
    h.destination := dst;
    h.protocol := 6;
    h.SetFragmentOffset(0);
    CarrierBits();
  }

  lemma CarrierBits()
    ensures Byte8(WithVersion(Bits8(0), 4)) == 0x40
    ensures Byte8(WithIhl(Bits8(0x40), 5)) == 0x45
    ensures Word16(WithFragmentOffset(Bits16(0), 0)) == 0
  {
    assert Bits8(0) == 0 && Bits8(0x40) == 0x40 && Bits16(0) == 0;
    assert WithVersion(0, 4) == 0x40 && WithIhl(0x40, 5) == 0x45 && WithFragmentOffset(0, 0) == 0;
  }

  lemma FilledPrefix(wire: seq<u8>, payload: seq<u8>, before: seq<u8>)
    requires |wire| == 20 && 20 + |payload| <= |before|
    ensures Filled(wire, 20, payload, before)[..20 + |payload|] == wire + payload
  {
    assert before[20..20] == [];
  }

  /**
   * `write_packet_` up to the hand-over to the device: the segment is written into one buffer
   * and the datagram around it into another. Too large a payload leaves nothing, or a bare
   * datagram header, exactly as the two size checks decide.
   */
  method WritePacket(src: u32, dst: u32, header: TcpHeader, payload: seq<u8>) returns (bytes: seq<u8>)
    requires Offset(Bits16(header.control)) == 5
    ensures |payload| <= 65495 ==> bytes == PacketBytes(src, dst, header.Fields(), payload)
    ensures 65495 < |payload| <= 65515 ==> bytes == []
    ensures 65515 < |payload| ==> bytes == Ipv4Encoded(Carrier(src, dst), [])
  {
    var segment := WriteSegment(src, dst, header, payload);
    bytes := WriteDatagram(src, dst, segment);
  }

  /** The inner buffer, up to what was written into it. */
  method WriteSegment(src: u32, dst: u32, header: TcpHeader, payload: seq<u8>) returns (bytes: seq<u8>)
    requires Offset(Bits16(header.control)) == 5
    ensures header.Fields() == old(header.Fields())
    ensures |payload| <= 65515 ==> bytes == TcpEncoded(header.Fields(), Octets(src), Octets(dst), payload)
    ensures |payload| > 65515 ==> bytes == []
  {
    var buffer := new u8[BUFFER](i => 0);
    ghost var before := buffer[..];
    ghost var f := header.Fields();
    FiveWords(Bits16(header.control));
    SendableIsHeader(f);
    var n := WriteTcp(header, payload, buffer, Octets(src), Octets(dst));
    if n > 0 {
      FilledPrefix(TcpHeaderSent(Sendable(f), Octets(src), Octets(dst), payload), payload, before);
    }
    bytes := buffer[..n];
  }

  /** The outer buffer, up to what was written into it. */
  method WriteDatagram(src: u32, dst: u32, segment: seq<u8>) returns (bytes: seq<u8>)
    ensures |segment| <= 65515 ==> bytes == Ipv4Encoded(Carrier(src, dst), segment)
    ensures |segment| > 65515 ==> bytes == []
  {
    var buffer := new u8[BUFFER](i => 0);
    ghost var before := buffer[..];
    var carrier := BuildCarrier(src, dst);
    FiveWordsIpv4();
    var total := WriteIpv4(carrier, segment, buffer);
    if total > 0 {
      FilledPrefix(Ipv4HeaderSent(Carrier(src, dst), total), segment, before);
    }
    bytes := buffer[..total];
  }

  lemma FiveWords(control: bv16)
    requires Offset(control) == 5
    ensures Word16(Offset(control)) == 5
  {
  }

  lemma FiveWordsIpv4()
    ensures Byte8(Ihl(Bits8(0x45))) == 5 && Version(Bits8(0x45)) == 4
  {
    assert Bits8(0x45) == 0x45;
  }

  /** With five words in place only the checksum field is reset, and it is refilled anyway. */
  lemma SendableIsHeader(f: TcpFields)
    requires Offset(Bits16(f.control)) == 5
    ensures Sendable(f) == f.(checksum := 0)
  {
  }
}
