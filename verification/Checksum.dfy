/** The Internet checksum (section 1 of RFC 1071) and the TCP checksum split over its parts. */
module Checksum {
  import opened Words

  // ------------------------------------------------------- the reference

  /** Two octets as a big-endian word. */
  function Word(hi: u8, lo: u8): u16 {
    hi * 0x100 + lo
  }

  /** The sum of the 16-bit big-endian words of `data`, the last octet padded on the right. */
  function WordSum(data: seq<u8>): nat {
    if |data| == 0 then 0
    else if |data| == 1 then Word(data[0], 0)
    else Word(data[0], data[1]) + WordSum(data[2..])
  }

  /** The value of the one's complement sum of words that add up to `n`. */
  function OnesSum(n: nat): u16 {
    if n == 0 then 0 else 1 + (n - 1) % 65535
  }

  function ChecksumOf(data: seq<u8>): u16 {
    65535 - OnesSum(WordSum(data))
  }

  /** What `OnesSum` means: the representative modulo 65535 that is 0 only for 0. */
  lemma OnesSumMeaning(n: nat)
    ensures OnesSum(n) % 65535 == n % 65535
    ensures OnesSum(n) == 0 <==> n == 0
  {
  }

  lemma OnesSumUnique(n: nat, r: u16)
    requires r % 65535 == n % 65535 && (r == 0 <==> n == 0)
    ensures r == OnesSum(n)
  {
  }

  // ------------------------------------------------------- lemmas on words

  lemma {:induction false} WordSumAppend(a: seq<u8>, b: seq<u8>)
    requires |a| % 2 == 0
    ensures WordSum(a + b) == WordSum(a) + WordSum(b)
  {
    if a == [] {
      assert a + b == b;
    } else {
      WordSumAppend(a[2..], b);
      assert (a + b)[2..] == a[2..] + b;
    }
  }

  lemma {:induction false} WordSumBound(data: seq<u8>)
    ensures WordSum(data) <= 65535 * ((|data| + 1) / 2)
  {
    if |data| > 1 {
      WordSumBound(data[2..]);
    }
  }

  /** At most 65537 words: the sum stays below 2^32. */
  lemma FitsAccumulator(data: seq<u8>)
    requires |data| <= 131074
    ensures WordSum(data) < 0x1_0000_0000
  {
    WordSumBound(data);
    assert (|data| + 1) / 2 <= 65537;
  }

  function High(w: u16): u8 {
    w / 0x100
  }

  function Low(w: u16): u8 {
    w % 0x100
  }

  lemma WordOfHighLow(w: u16)
    ensures Word(High(w), Low(w)) == w
  {
  }

  /** The same octets with the word at offset `at` replaced. */
  function WithWord(data: seq<u8>, at: nat, w: u16): seq<u8>
    requires at + 2 <= |data|
  {
    data[at := High(w)][at + 1 := Low(w)]
  }

  lemma WordSumAt(data: seq<u8>, at: nat)
    requires at % 2 == 0 && at + 2 <= |data|
    ensures WordSum(data) == WordSum(data[..at]) + Word(data[at], data[at + 1]) + WordSum(data[at + 2..])
  {
    assert data == data[..at] + data[at..];
    WordSumAppend(data[..at], data[at..]);
    assert data[at..][2..] == data[at + 2..];
  }

  lemma WordSumWithWord(data: seq<u8>, at: nat, w: u16)
    requires at % 2 == 0 && at + 2 <= |data| && data[at] == data[at + 1] == 0
    ensures WordSum(WithWord(data, at, w)) == WordSum(data) + w
  {
    var data' := WithWord(data, at, w);
    WordSumAt(data, at);
    WordSumAt(data', at);
    WordOfHighLow(w);
    assert data'[..at] == data[..at] && data'[at + 2..] == data[at + 2..];
  }

  /**
   * Self-verification: put the checksum of the data, computed with a zero checksum word, into
   * that word, and the checksum of the result is 0. Any even offset, any length.
   */
  lemma SelfVerifies(data: seq<u8>, at: nat)
    requires at % 2 == 0 && at + 2 <= |data| && data[at] == data[at + 1] == 0
    ensures ChecksumOf(WithWord(data, at, ChecksumOf(data))) == 0
  {
    WordSumWithWord(data, at, ChecksumOf(data));
    OnesSumCompletes(WordSum(data));
  }

  /** The word `w` in place of the one at `at`. */
  lemma WordSumReplaced(data: seq<u8>, at: nat, w: u16)
    requires at % 2 == 0 && at + 2 <= |data|
    ensures WordSum(WithWord(data, at, w)) == WordSum(WithWord(data, at, 0)) + w
  {
    WordSumWithWord(WithWord(data, at, 0), at, w);
    assert WithWord(WithWord(data, at, 0), at, w) == WithWord(data, at, w);
  }

  lemma VerifiesModulo(n: nat)
    ensures 65535 - OnesSum(n) == 0 <==> n > 0 && n % 65535 == 0
  {
    OnesSumMeaning(n);
  }

  /**
   * Which errors in a word show: of data that verifies, with any other octets that are not all
   * zero, exactly the words congruent modulo 65535 verify too (0 and 65535 are each other's
   * only partner).
   */
  lemma VerifiesExactlyWhen(data: seq<u8>, at: nat, w: u16)
    requires at % 2 == 0 && at + 2 <= |data|
    requires ChecksumOf(data) == 0 && WordSum(WithWord(data, at, 0)) > 0
    ensures ChecksumOf(WithWord(data, at, w)) == 0 <==> w % 65535 == Word(data[at], data[at + 1]) % 65535
  {
    var m, v := WordSum(WithWord(data, at, 0)), Word(data[at], data[at + 1]);
    WordSumReplaced(data, at, v);
    WordSumReplaced(data, at, w);
    SameWord(data, at);
    VerifiesLike(m, v, w);
  }

  lemma SameWord(data: seq<u8>, at: nat)
    requires at + 2 <= |data|
    ensures WithWord(data, at, Word(data[at], data[at + 1])) == data
  {
  }

  lemma VerifiesLike(m: nat, v: u16, w: u16)
    requires m > 0 && 65535 - OnesSum(m + v) == 0
    ensures 65535 - OnesSum(m + w) == 0 <==> w % 65535 == v % 65535
  {
    VerifiesModulo(m + v);
    VerifiesModulo(m + w);
    SameRest(m, v, w);
  }

  lemma SameRest(m: nat, v: u16, w: u16)
    requires (m + v) % 65535 == 0
    ensures (m + w) % 65535 == 0 <==> w % 65535 == v % 65535
  {
    assert (m + w) - (m + v) == w - v;
  }

  /** Adding the complement of the one's complement sum gives all ones. */
  lemma OnesSumCompletes(n: nat)
    ensures OnesSum(n + (65535 - OnesSum(n))) == 65535
  {
    if n > 0 {
      var q, r := (n - 1) / 65535, (n - 1) % 65535;
      assert n + (65535 - OnesSum(n)) == 65535 * q + 65535;
      ModuloMultiple(65534, q);
    }
  }

  lemma {:induction false} ModuloMultiple(x: nat, k: nat)
    ensures (x + 65535 * k) % 65535 == x % 65535
    decreases k
  {
    if k > 0 {
      ModuloMultiple(x, k - 1);
      AddModulus(x + 65535 * (k - 1));
    }
  }

  lemma AddModulus(y: nat)
    ensures (y + 65535) % 65535 == y % 65535
  {
  }

  // ------------------------------------------------------- the program

  /** Adds the halves of `sum` until nothing is left above the low one. */
  method Fold(sum: u32) returns (r: u16)
    ensures r == OnesSum(sum)
  {
    var s: u32 := sum;
    while s / 0x1_0000 > 0
      invariant s % 65535 == sum % 65535 && (s == 0 <==> sum == 0)
      decreases s
    {
      FoldStep(s);
      s := Wrap(s % 0x1_0000 + s / 0x1_0000);
    }
    OnesSumUnique(sum, s);
    r := s;
  }

  /** One fold decreases the sum, keeps it positive and keeps it modulo 65535. */
  lemma FoldStep(s: u32)
    requires s >= 0x1_0000
    ensures var t := s % 0x1_0000 + s / 0x1_0000; 0 < t < s && t % 65535 == s % 65535
  {
    var t := s % 0x1_0000 + s / 0x1_0000;
    assert s == t + 65535 * (s / 0x1_0000);
    ModuloMultiple(t, s / 0x1_0000);
  }

  /** `sum += word` on `uint32_t`, in the part of the loop that `data[i..]` still has to add. */
  lemma AddWord(data: seq<u8>, i: nat)
    requires i + 1 < |data|
    ensures WordSum(data[i..]) == Word(data[i], data[i + 1]) + WordSum(data[i + 2..])
  {
    assert data[i..][2..] == data[i + 2..];
  }

  /** The folded complement of a sum on a 32-bit accumulator that wraps. */
  function Wrapped(total: nat): u16 {
    65535 - OnesSum(Wrap(total))
  }

  lemma WrappedFits(data: seq<u8>)
    requires |data| <= 131074
    ensures Wrapped(WordSum(data)) == ChecksumOf(data)
  {
    FitsAccumulator(data);
    WrapSmall(WordSum(data));
  }

  /** The result for data of any length; up to 65537 words the accumulator does not wrap. */
  method OnesComplementChecksum(data: seq<u8>) returns (r: u16)
    ensures r == Wrapped(WordSum(data))
    ensures |data| <= 131074 ==> r == ChecksumOf(data)
  {
    var sum: u32 := 0;
    var i := 0;
    while |data| - i >= 2
      invariant 0 <= i <= |data|
      invariant Wrap(sum + WordSum(data[i..])) == Wrap(WordSum(data))
    {
      AddWord(data, i);
      WrapPlus(sum + Word(data[i], data[i + 1]), WordSum(data[i + 2..]));
      sum := Add32(sum, Word(data[i], data[i + 1]));
      i := i + 2;
    }
    if |data| - i == 1 {
      sum := Add32(sum, Word(data[i], 0));
    }
    WrapSmall(sum);
    var folded := Fold(sum);
    r := 65535 - folded;
    if |data| <= 131074 { WrappedFits(data); }
  }

  // ------------------------------------------------------- the TCP checksum

  /** The four octets of an address as they lie in memory in network order. */
  type Quad = s: seq<u8> | |s| == 4 witness [0, 0, 0, 0]

  /** The 96-bit pseudo-header of section 3.1 of RFC 793. */
  function PseudoHeader(src: Quad, dst: Quad, length: u16): seq<u8> {
    src + dst + [0, 6, High(length), Low(length)]
  }

  /** The checksum of pseudo-header, header and payload laid out one after the other. */
  function TcpChecksum(src: Quad, dst: Quad, header: seq<u8>, payload: seq<u8>): u16
    requires |header| + |payload| <= 65535
  {
    ChecksumOf(PseudoHeader(src, dst, |header| + |payload|) + header + payload)
  }

  /** The two words of an address. */
  function AddressSum(q: Quad): nat {
    Word(q[0], q[1]) + Word(q[2], q[3])
  }

  lemma QuadSum(q: seq<u8>)
    requires |q| == 4
    ensures WordSum(q) == Word(q[0], q[1]) + Word(q[2], q[3])
  {
    assert WordSum(q[2..]) == Word(q[2], q[3]);
  }

  lemma PseudoHeaderSum(src: Quad, dst: Quad, length: u16)
    ensures WordSum(PseudoHeader(src, dst, length)) == AddressSum(src) + AddressSum(dst) + 6 + length
    ensures |PseudoHeader(src, dst, length)| == 12
  {
    var tail: seq<u8> := [0, 6, High(length), Low(length)];
    assert PseudoHeader(src, dst, length) == src + (dst + tail);
    WordSumAppend(src, dst + tail);
    WordSumAppend(dst, tail);
    QuadSum(src);
    QuadSum(dst);
    QuadSum(tail);
    WordOfHighLow(length);
  }

  /**
   * `ComputeTcpChecksum`: header and payload are summed where they lie. The loop over the
   * header reads octets in pairs, so the header length must be even.
   */
  method ComputeTcpChecksum(src: Quad, dst: Quad, header: seq<u8>, payload: seq<u8>) returns (r: u16)
    requires |header| % 2 == 0
    ensures r == Wrapped(WordSum(PseudoHeader(src, dst, Wrap16(|header| + |payload|)) + header + payload))
    ensures |header| + |payload| <= 65535 ==> r == TcpChecksum(src, dst, header, payload)
  {
    var length := Wrap16(|header| + |payload|);
    var sum := SumPseudoHeader(src, dst, length);
    SplitSum(src, dst, length, header, payload);
    ghost var before := sum;
    sum := SumInto(sum, header);
    sum := SumInto(sum, payload);
    WrapPlus(before + WordSum(header), WordSum(payload));
    WrapSmall(sum);
    var folded := Fold(sum);
    r := 65535 - folded;
    if |header| + |payload| <= 65535 { TcpChecksumFits(src, dst, header, payload); }
  }

  /** With a length of 16 bits the accumulator does not wrap. */
  lemma TcpChecksumFits(src: Quad, dst: Quad, header: seq<u8>, payload: seq<u8>)
    requires |header| + |payload| <= 65535
    ensures Wrapped(WordSum(PseudoHeader(src, dst, |header| + |payload|) + header + payload)) == TcpChecksum(src, dst, header, payload)
  {
    WrappedFits(PseudoHeader(src, dst, |header| + |payload|) + header + payload);
  }

  /** The six words of the pseudo-header. */
  method SumPseudoHeader(src: Quad, dst: Quad, length: u16) returns (sum: u32)
    ensures sum == AddressSum(src) + AddressSum(dst) + 6 + length
  {
    sum := Word(src[0], src[1]);
    sum := Add32(sum, Word(src[2], src[3]));
    sum := Add32(sum, Word(dst[0], dst[1]));
    sum := Add32(sum, Word(dst[2], dst[3]));
    sum := Add32(sum, 6);
    sum := Add32(sum, length);
  }

  /** The accumulation loop over one part of a segment. */
  method SumInto(sum: u32, data: seq<u8>) returns (r: u32)
    ensures r == Wrap(sum + WordSum(data))
  {
    r := sum;
    var i := 0;
    while i + 1 < |data|
      invariant 0 <= i <= |data|
      invariant Wrap(r + WordSum(data[i..])) == Wrap(sum + WordSum(data))
    {
      AddWord(data, i);
      WrapPlus(r + Word(data[i], data[i + 1]), WordSum(data[i + 2..]));
      r := Add32(r, Word(data[i], data[i + 1]));
      i := i + 2;
    }
    if i < |data| {
      r := Add32(r, Word(data[i], 0));
    }
    WrapSmall(r);
  }

  lemma SplitSum(src: Quad, dst: Quad, length: u16, header: seq<u8>, payload: seq<u8>)
    requires |header| % 2 == 0
    ensures WordSum(PseudoHeader(src, dst, length) + header + payload) ==
            AddressSum(src) + AddressSum(dst) + 6 + length + WordSum(header) + WordSum(payload)
  {
    PseudoHeaderSum(src, dst, length);
    WordSumAppend(PseudoHeader(src, dst, length), header);
    WordSumAppend(PseudoHeader(src, dst, length) + header, payload);
  }

  /**
   * A receiver that sums pseudo-header and segment, checksum word included, gets 0. The
   * checksum word of a TCP header lies at offset 16.
   */
  lemma TcpSelfVerifies(src: Quad, dst: Quad, header: seq<u8>, payload: seq<u8>)
    requires |header| % 2 == 0 && 18 <= |header| && |header| + |payload| <= 65535
    requires header[16] == header[17] == 0
    ensures var filled := WithWord(header, 16, TcpChecksum(src, dst, header, payload));
      TcpChecksum(src, dst, filled, payload) == 0
  {
    var pseudo := PseudoHeader(src, dst, |header| + |payload|);
    PseudoHeaderSum(src, dst, |header| + |payload|);
    var all := pseudo + header + payload;
    var c := TcpChecksum(src, dst, header, payload);
    SelfVerifies(all, 28);
    assert WithWord(all, 28, c) == pseudo + WithWord(header, 16, c) + payload;
  }
}
