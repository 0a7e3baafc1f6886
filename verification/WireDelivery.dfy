/**
 * Segments as octets: what one stack hands to the device, parsed by another, is the segment
 * that the protocol layer works with, so channels of octets refine channels of segments.
 */
module WireDelivery {
  import opened Words
  import opened Checksum
  import opened Wire
  import opened Packets
  import opened ControlBlock
  import opened StackModel

  datatype Option<T> = None | Some(value: T)

  /** The control word that the setters build: offset 5 and the flags of the segment. */
  function ControlBits(p: Segment): bv16 {
    WithFlag(WithFlag(WithFlag(WithFlag(WithOffset(0, 5), 1, p.syn), 4, p.ack), 2, p.rst), 0, p.fin)
  }

  /** The same word as a number. */
  function ControlWord(p: Segment): u16 {
    0x5000 + (if p.ack then 16 else 0) + (if p.rst then 4 else 0) + (if p.syn then 2 else 0) + (if p.fin then 1 else 0)
  }

  lemma ControlWordIsBits(p: Segment)
    ensures Word16(ControlBits(p)) == ControlWord(p) && Bits16(ControlWord(p)) == ControlBits(p)
  {
    var w := ControlBits(p);
    assert w == 0x5000 | (if p.ack then 16 else 0) | (if p.rst then 4 else 0) | (if p.syn then 2 else 0) | (if p.fin then 1 else 0);
    BitsBack(w, 0);
  }

  function HeaderOf(p: Packet): TcpFields {
    TcpFields(p.src.port, p.dst.port, p.seg.seqNum, p.seg.ackNum, ControlWord(p.seg), p.seg.window, 0, 0)
  }

  /** The header built setter by setter, as `send_control_packet_` does. */
  method BuildHeader(p: Packet) returns (h: TcpHeader)
    ensures fresh(h) && h.Fields() == HeaderOf(p)
  {
    h := new TcpHeader(TcpFields(0, 0, 0, 0, 0, 0, 0, 0));
    h.sourcePort := p.src.port;
    h.destPort := p.dst.port;
    assert Bits16(h.control) == 0;
    BitsBack(WithOffset(0, 5), 0);
    h.SetDataOffset(5);
    h.SetFlag(1, p.seg.syn);
    h.SetFlag(4, p.seg.ack);
    h.SetFlag(2, p.seg.rst);
    h.SetFlag(0, p.seg.fin);
    h.seqNum := p.seg.seqNum;
    h.ackNum := p.seg.ackNum;
    h.window := p.seg.window;
    ControlWordIsBits(p.seg);
  }

  lemma ControlRead(p: Segment)
    ensures var w := Bits16(ControlWord(p));
      && Offset(w) == 5
      && Flag(w, 1) == p.syn && Flag(w, 4) == p.ack && Flag(w, 2) == p.rst && Flag(w, 0) == p.fin
      && !Flag(w, 5) && !Flag(w, 3)
  {
    ControlWordIsBits(p);
  }

  /** A packet as `write_packet_` puts it on the wire. */
  function Encode(p: Packet): seq<u8>
    requires |p.seg.payload| <= 65495
  {
    PacketBytes(p.src.ip, p.dst.ip, HeaderOf(p), p.seg.payload)
  }

  /** The packet that a parsed header and payload describe. */
  function FromFields(src: u32, dst: u32, f: TcpFields, payload: seq<u8>): Packet {
    var w := Bits16(f.control);
    Packet(Address(src, f.sourcePort), Address(dst, f.destPort),
           Segment(f.seqNum, f.ackNum, Flag(w, 1), Flag(w, 4), Flag(w, 2), Flag(w, 0), f.window, payload))
  }

  /** The parsing half of `process_incoming_packet_`; checksums are not looked at. */
  function Decode(b: seq<u8>): Option<Packet> {
    if !Ipv4Valid(b) || !TcpValid(Ipv4Payload(b)) then None
    else
      var ip, t := Ipv4Read(b), Ipv4Payload(b);
      Some(FromFields(ip.source, ip.destination, TcpRead(t), TcpPayload(t)))
  }

  /** Sending a segment produces exactly its encoding. */
  method SendPacket(p: Packet) returns (bytes: seq<u8>)
    requires |p.seg.payload| <= 65495
    ensures bytes == Encode(p)
  {
    var h := BuildHeader(p);
    ControlRead(p.seg);
    bytes := WritePacket(p.src.ip, p.dst.ip, h, p.seg.payload);
  }

  /** The segment inside the datagram that `PacketBytes` lays out. */
  lemma InnerSegment(src: u32, dst: u32, f: TcpFields, payload: seq<u8>)
    requires |payload| <= 65495
    ensures var b := PacketBytes(src, dst, f, payload);
      var t := TcpEncoded(f, Octets(src), Octets(dst), payload);
      && Ipv4Valid(b) && Ipv4Payload(b) == t && b[20..] == t
      && Ipv4Read(b).source == src && Ipv4Read(b).destination == dst
      && ChecksumOf(b[..20]) == 0
  {
    FiveWordsIpv4();
    Ipv4RoundTrip(Carrier(src, dst), TcpEncoded(f, Octets(src), Octets(dst), payload));
  }

  /** Whatever the header, with data offset 5 its octets decode to what its fields say. */
  lemma DecodesFields(src: u32, dst: u32, f: TcpFields, payload: seq<u8>)
    requires Offset(Bits16(f.control)) == 5 && |payload| <= 65495
    ensures Decode(PacketBytes(src, dst, f, payload)) == Some(FromFields(src, dst, f, payload))
  {
    InnerSegment(src, dst, f, payload);
    TcpRoundTrip(f, Octets(src), Octets(dst), payload);
  }

  /** The octets are valid for both views and parse back to the same packet. */
  lemma PacketRoundTrip(p: Packet)
    requires |p.seg.payload| <= 65495
    ensures Decode(Encode(p)) == Some(p)
  {
    ControlRead(p.seg);
    DecodesFields(p.src.ip, p.dst.ip, HeaderOf(p), p.seg.payload);
  }

  /** Both checksums of a packet on the wire verify to 0. */
  lemma PacketVerifies(src: u32, dst: u32, f: TcpFields, payload: seq<u8>)
    requires Offset(Bits16(f.control)) == 5 && |payload| <= 65495
    ensures var b := PacketBytes(src, dst, f, payload);
      && |b| == 40 + |payload|
      && ChecksumOf(b[..20]) == 0
      && TcpChecksum(Octets(src), Octets(dst), b[20..40], b[40..]) == 0
  {
    InnerSegment(src, dst, f, payload);
    var t := TcpEncoded(f, Octets(src), Octets(dst), payload);
    TcpRoundTrip(f, Octets(src), Octets(dst), payload);
    var b := PacketBytes(src, dst, f, payload);
    assert b[20..40] == t[..20] && b[40..] == t[20..];
  }

  // ------------------------------------------------------- checksums are not looked at

  /**
   * The header checksum of IPv4 has no influence on whether octets are accepted, nor, when the
   * header length covers the header, on what they are accepted as.
   */
  lemma DecodeIgnoresIpv4Checksum(b: seq<u8>, w: u16)
    requires |b| >= 12
    ensures Decode(WithWord(b, 10, w)).None? <==> Decode(b).None?
    ensures |b| >= 20 && Ipv4HeaderLength(b) >= 20 ==> Decode(WithWord(b, 10, w)) == Decode(b)
  {
    if |b| >= 20 {
      SameEnvelope(b, w);
      if Ipv4Valid(b) {
        SegmentAccepted(Ipv4Payload(b), Ipv4Payload(WithWord(b, 10, w)));
      }
    }
  }

  /** What the view reads of the datagram, the checksum word and short headers aside. */
  lemma SameEnvelope(b: seq<u8>, w: u16)
    requires |b| >= 20
    ensures var b' := WithWord(b, 10, w);
      && (Ipv4Valid(b') <==> Ipv4Valid(b)) && Ipv4HeaderLength(b') == Ipv4HeaderLength(b)
      && Ipv4Read(b').source == Ipv4Read(b).source && Ipv4Read(b').destination == Ipv4Read(b).destination
      && (Ipv4Valid(b) ==>
            && |Ipv4Payload(b')| == |Ipv4Payload(b)|
            && (|Ipv4Payload(b)| >= 14 ==> Ipv4Payload(b')[12..14] == Ipv4Payload(b)[12..14])
            && (Ipv4HeaderLength(b) >= 20 ==> Ipv4Payload(b') == Ipv4Payload(b)))
  {
    var b' := WithWord(b, 10, w);
    assert BE16(b', 2) == BE16(b, 2) && BE32(b', 12) == BE32(b, 12) && BE32(b', 16) == BE32(b, 16);
    assert b'[0] == b[0];
    if Ipv4Valid(b) {
      SameBehindWord(b, 10, w, Ipv4HeaderLength(b), BE16(b, 2));
    }
  }

  lemma SegmentAccepted(t: seq<u8>, t': seq<u8>)
    requires |t'| == |t| && (|t| >= 14 ==> t'[12..14] == t[12..14])
    ensures TcpValid(t') <==> TcpValid(t)
  {
    if |t| >= 20 {
      assert BE16(t', 12) == BE16(t'[12..14], 0) == BE16(t, 12);
    }
  }

  /** The part of the octets that does not hold the replaced word. */
  lemma SameBehindWord(b: seq<u8>, at: nat, w: u16, from: nat, to: nat)
    requires at + 2 <= |b| && from <= to <= |b|
    ensures at + 2 <= from ==> WithWord(b, at, w)[from..to] == b[from..to]
    ensures from <= at && at + 2 <= to ==> WithWord(b, at, w)[from..to] == WithWord(b[from..to], at - from, w)
    ensures forall k | 0 <= k < to - from && from + k != at && from + k != at + 1 ::
      WithWord(b, at, w)[from..to][k] == b[from..to][k]
  {
  }

  /** Nor has the TCP checksum, at offset 16 of the segment. */
  lemma DecodeIgnoresTcpChecksum(b: seq<u8>, w: u16)
    requires Decode(b).Some? && Ipv4HeaderLength(b) >= 20
    ensures Ipv4HeaderLength(b) + 18 <= |b|
    ensures Decode(WithWord(b, Ipv4HeaderLength(b) + 16, w)) == Decode(b)
  {
    DatagramAround(b, w);
    SegmentIgnoresChecksum(Ipv4Payload(b), w);
    FieldsIgnoreChecksum(TcpRead(Ipv4Payload(b)), TcpRead(WithWord(Ipv4Payload(b), 16, w)));
  }

  /** Replacing a word of the payload leaves the datagram around it alone. */
  lemma DatagramAround(b: seq<u8>, w: u16)
    requires Ipv4Valid(b) && Ipv4HeaderLength(b) >= 20 && |Ipv4Payload(b)| >= 18
    ensures Ipv4HeaderLength(b) + 18 <= |b|
    ensures var b' := WithWord(b, Ipv4HeaderLength(b) + 16, w);
      && Ipv4Valid(b') && Ipv4Payload(b') == WithWord(Ipv4Payload(b), 16, w)
      && Ipv4Read(b').source == Ipv4Read(b).source && Ipv4Read(b').destination == Ipv4Read(b).destination
  {
    var h := Ipv4HeaderLength(b);
    var b' := WithWord(b, h + 16, w);
    SameBehindWord(b, h + 16, w, h, BE16(b, 2));
    assert BE16(b', 2) == BE16(b, 2) && BE32(b', 12) == BE32(b, 12) && BE32(b', 16) == BE32(b, 16);
    assert b'[0] == b[0];
  }

  lemma FieldsIgnoreChecksum(f: TcpFields, g: TcpFields)
    requires f.(checksum := 0) == g.(checksum := 0)
    ensures forall src, dst, payload :: FromFields(src, dst, f, payload) == FromFields(src, dst, g, payload)
  {
  }

  lemma SegmentIgnoresChecksum(t: seq<u8>, w: u16)
    requires TcpValid(t)
    ensures var t' := WithWord(t, 16, w);
      && TcpValid(t') && TcpPayload(t') == TcpPayload(t)
      && TcpRead(t').(checksum := 0) == TcpRead(t).(checksum := 0)
  {
    var t' := WithWord(t, 16, w);
    assert BE16(t', 12) == BE16(t, 12);
    SameBehindWord(t, 16, w, TcpHeaderLength(t), |t|);
    assert t'[TcpHeaderLength(t)..|t|] == t'[TcpHeaderLength(t)..] && t[TcpHeaderLength(t)..|t|] == t[TcpHeaderLength(t)..];
  }

  /**
   * Whatever the two checksum words of a packet on the wire are replaced with, it is accepted
   * as the same packet, although each checksum then verifies if and only if its new word is
   * congruent to the right one modulo 65535.
   */
  lemma WrongChecksumsAreAccepted(p: Packet, v: u16, w: u16)
    requires |p.seg.payload| <= 65495
    ensures var b := Encode(p);
      && |b| >= 40
      && var b' := WithWord(WithWord(b, 10, v), 36, w);
      && Decode(b') == Some(p)
      && (ChecksumOf(b'[..20]) == 0 <==> v % 65535 == BE16(b, 10) % 65535)
      && (TcpChecksum(Octets(p.src.ip), Octets(p.dst.ip), b'[20..40], b'[40..]) == 0 <==> w % 65535 == BE16(b, 36) % 65535)
  {
    var b := Encode(p);
    ControlRead(p.seg);
    PacketVerifies(p.src.ip, p.dst.ip, HeaderOf(p), p.seg.payload);
    HeaderIsFiveWords(p);
    PacketRoundTrip(p);
    WrongChecksumsParse(b, v, w);
    ReplacedWords(b, v, w);
    Ipv4WordShows(b[..20], v);
    TcpWordShows(Octets(p.src.ip), Octets(p.dst.ip), b[20..40], b[40..], w);
  }

  lemma WrongChecksumsParse(b: seq<u8>, v: u16, w: u16)
    requires |b| >= 40 && Decode(b).Some? && Ipv4HeaderLength(b) == 20
    ensures Decode(WithWord(WithWord(b, 10, v), 36, w)) == Decode(b)
  {
    DecodeIgnoresIpv4Checksum(b, v);
    assert WithWord(b, 10, v)[0] == b[0];
    DecodeIgnoresTcpChecksum(WithWord(b, 10, v), w);
  }

  lemma ReplacedWords(b: seq<u8>, v: u16, w: u16)
    requires |b| >= 40
    ensures var b' := WithWord(WithWord(b, 10, v), 36, w);
      b'[..20] == WithWord(b[..20], 10, v) && b'[20..40] == WithWord(b[20..40], 16, w) && b'[40..] == b[40..]
    ensures BE16(b[..20], 10) == BE16(b, 10) && BE16(b[20..40], 16) == BE16(b, 36)
  {
  }

  lemma HeaderIsFiveWords(p: Packet)
    requires |p.seg.payload| <= 65495
    ensures |Encode(p)| >= 20 && Encode(p)[0] == 0x45 && Ipv4HeaderLength(Encode(p)) == 20
  {
    FiveWordsIpv4();
  }

  lemma Ipv4WordShows(h: seq<u8>, v: u16)
    requires |h| == 20 && h[0] == 0x45 && ChecksumOf(h) == 0
    ensures ChecksumOf(WithWord(h, 10, v)) == 0 <==> v % 65535 == BE16(h, 10) % 65535
  {
    VerifiesExactlyWhen(h, 10, v);
  }

  lemma TcpWordShows(src: Quad, dst: Quad, h: seq<u8>, payload: seq<u8>, w: u16)
    requires |h| == 20 && |h| + |payload| <= 65535 && TcpChecksum(src, dst, h, payload) == 0
    ensures TcpChecksum(src, dst, WithWord(h, 16, w), payload) == 0 <==> w % 65535 == BE16(h, 16) % 65535
  {
    var length := |h| + |payload|;
    var pseudo := PseudoHeader(src, dst, length);
    var all := pseudo + h + payload;
    PseudoHeaderSum(src, dst, length);
    SplitSum(src, dst, length, WithWord(h, 16, 0), payload);
    assert WithWord(all, 28, 0) == pseudo + WithWord(h, 16, 0) + payload;
    assert WithWord(all, 28, w) == pseudo + WithWord(h, 16, w) + payload;
    VerifiesExactlyWhen(all, 28, w);
  }

  // ------------------------------------------------------- where each field lies

  /** The fields of section 3.1 of RFC 791, for a datagram of one TCP segment. */
  ghost predicate LaidOutAsIpv4(b: seq<u8>, p: Packet) {
    && |b| == 40 + |p.seg.payload|
    && b[0] == 0x45 && b[1] == 0
    && Number(0, 0, b[2], b[3]) == |b|
    && b[8] == 255 && b[9] == 6
    && Number(b[12], b[13], b[14], b[15]) == p.src.ip && Number(b[16], b[17], b[18], b[19]) == p.dst.ip
  }

  /** The fields of section 3.1 of RFC 793, from octet 20 on. */
  ghost predicate LaidOutAsTcp(b: seq<u8>, p: Packet) {
    && |b| == 40 + |p.seg.payload|
    && Number(0, 0, b[20], b[21]) == p.src.port && Number(0, 0, b[22], b[23]) == p.dst.port
    && Number(b[24], b[25], b[26], b[27]) == p.seg.seqNum && Number(b[28], b[29], b[30], b[31]) == p.seg.ackNum
    && b[32] == 0x50
    && b[33] == (if p.seg.fin then 1 else 0) + (if p.seg.syn then 2 else 0) + (if p.seg.rst then 4 else 0) + (if p.seg.ack then 16 else 0)
    && Number(0, 0, b[34], b[35]) == p.seg.window
    && b[38] == b[39] == 0
    && b[40..] == p.seg.payload
  }

  function Number(a: u8, b: u8, c: u8, d: u8): nat {
    ((a * 0x100 + b) * 0x100 + c) * 0x100 + d
  }

  lemma NumberOfOctets(w: u32)
    ensures var q := Octets(w); Number(q[0], q[1], q[2], q[3]) == w
  {
    JoinHalves(w);
    WordOfHighLow(Upper(w));
    WordOfHighLow(Lower(w));
  }

  /** Every field of a packet on the wire lies at the octets that the two standards give it. */
  lemma PacketLayout(p: Packet)
    requires |p.seg.payload| <= 65495
    ensures LaidOutAsIpv4(Encode(p), p) && LaidOutAsTcp(Encode(p), p)
  {
    ControlRead(p.seg);
    InnerSegment(p.src.ip, p.dst.ip, HeaderOf(p), p.seg.payload);
    SegmentLayout(p, Octets(p.src.ip), Octets(p.dst.ip));
    EnvelopeLayout(p);
    var b := Encode(p);
    var t := b[20..];
    assert b[40..] == t[20..];
  }

  lemma EnvelopeLayout(p: Packet)
    requires |p.seg.payload| <= 65495
    ensures LaidOutAsIpv4(Encode(p), p)
  {
    FiveWordsIpv4();
    NumberOfOctets(p.src.ip);
    NumberOfOctets(p.dst.ip);
    WordOfHighLow(40 + |p.seg.payload|);
  }

  lemma SegmentLayout(p: Packet, src: Quad, dst: Quad)
    requires |p.seg.payload| <= 65495
    ensures var t := TcpEncoded(HeaderOf(p), src, dst, p.seg.payload);
      && |t| == 20 + |p.seg.payload|
      && Number(0, 0, t[0], t[1]) == p.src.port && Number(0, 0, t[2], t[3]) == p.dst.port
      && Number(t[4], t[5], t[6], t[7]) == p.seg.seqNum && Number(t[8], t[9], t[10], t[11]) == p.seg.ackNum
      && t[12] == 0x50
      && t[13] == (if p.seg.fin then 1 else 0) + (if p.seg.syn then 2 else 0) + (if p.seg.rst then 4 else 0) + (if p.seg.ack then 16 else 0)
      && Number(0, 0, t[14], t[15]) == p.seg.window
      && t[18] == t[19] == 0
      && t[20..] == p.seg.payload
  {
    NumberOfOctets(p.seg.seqNum);
    NumberOfOctets(p.seg.ackNum);
    WordOfHighLow(p.src.port);
    WordOfHighLow(p.dst.port);
    WordOfHighLow(p.seg.window);
  }

  /** Delivery of raw octets to a stack. */
  function IncomingBytes(s: Stack, b: seq<u8>, iss: u32): Stack {
    match Decode(b)
    case None => s
    case Some(p) => Incoming(s, p.src, p.dst, p.seg, iss)
  }

  /** Delivering the octets of a packet is delivering the packet. */
  lemma BytesRefineSegments(s: Stack, p: Packet, iss: u32)
    requires |p.seg.payload| <= 65495
    ensures IncomingBytes(s, Encode(p), iss) == Incoming(s, p.src, p.dst, p.seg, iss)
  {
    PacketRoundTrip(p);
  }

  /** Every segment a control block emits is small enough to be encoded. */
  lemma EmittedSegmentsFit(t: Tcb, p: Segment)
    ensures forall q | q in ControlBlock.ProcessBlock(t).out :: |q.payload| <= MAX_SEGMENT
    ensures forall q | q in Retransmit(t).out :: |q.payload| <= MAX_SEGMENT
    ensures forall q | q in CloseConnection(t).out :: |q.payload| <= MAX_SEGMENT
    ensures forall q | q in Receive(t, p).out :: q.payload == []
  {
    SendingFits(t);
    RepliesAreEmpty(t, p);
  }

  lemma SendingFits(t: Tcb)
    ensures forall q | q in ControlBlock.ProcessBlock(t).out :: |q.payload| <= MAX_SEGMENT
    ensures forall q | q in Retransmit(t).out :: |q.payload| <= MAX_SEGMENT
    ensures forall q | q in CloseConnection(t).out :: |q.payload| <= MAX_SEGMENT
  {
  }

  lemma RepliesAreEmpty(t: Tcb, p: Segment)
    ensures forall q | q in Receive(t, p).out :: q.payload == []
  {
    if t.state.Established? { EstablishedReplies(t, p); }
    else if t.state.SynSent? || t.state.SynReceived? { HandshakeReplies(t, p); }
    else { LaterReplies(t, p); }
  }

  lemma EstablishedReplies(t: Tcb, p: Segment)
    requires t.state.Established?
    ensures forall q | q in Receive(t, p).out :: q.payload == []
  {
  }

  lemma HandshakeReplies(t: Tcb, p: Segment)
    requires t.state.SynSent? || t.state.SynReceived?
    ensures forall q | q in Receive(t, p).out :: q.payload == []
  {
  }

  lemma LaterReplies(t: Tcb, p: Segment)
    requires !t.state.Established? && !t.state.SynSent? && !t.state.SynReceived?
    ensures forall q | q in Receive(t, p).out :: q.payload == []
  {
  }
}
