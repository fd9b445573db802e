/** The Internet checksum over scattered parts, and the Ethernet frame that carries a DHCP reply. */
module Checksum {
  import opened Basics

  const WRAP := 0x1_0000_0000

  // ------------------------------------------------------------------ one's-complement sums

  /** Sum of the big-endian 16-bit words; an odd last byte counts as a word's high byte. */
  function Sum(b: Bytes): nat {
    if b == [] then 0
    else if |b| == 1 then b[0] * 0x100
    else b[0] * 0x100 + b[1] + Sum(b[2..])
  }

  /** Adds carries back in until the sum fits 16 bits. */
  function Fold(s: nat): u16 {
    if s < 0x1_0000 then s else Fold(s % 0x1_0000 + s / 0x1_0000)
  }

  /** Arithmetic on 32-bit words. */
  function Wrapped(s: nat): u32 {
    s % WRAP
  }

  /** The checksum of RFC 1071, on 32-bit sums that wrap. */
  function ChecksumOf(b: Bytes): u16 {
    0xFFFF - Fold(Wrapped(Sum(b)))
  }

  /** Folding keeps the value modulo 65535 and tells zero from nonzero. */
  lemma {:induction false} FoldIs(s: nat)
    ensures Fold(s) % 0xFFFF == s % 0xFFFF && (Fold(s) == 0 <==> s == 0)
    decreases s
  {
    if s >= 0x1_0000 {
      var t := s % 0x1_0000 + s / 0x1_0000;
      FoldIs(t);
      assert s == t + 0xFFFF * (s / 0x1_0000);
      ModShift(t, s / 0x1_0000);
    }
  }

  lemma ModShift(t: nat, k: nat)
    ensures (t + 0xFFFF * k) % 0xFFFF == t % 0xFFFF
  {
  }

  /** A positive multiple of 65535 folds to all ones. */
  lemma FoldOnes(s: nat)
    requires s > 0 && s % 0xFFFF == 0
    ensures Fold(s) == 0xFFFF
  {
    FoldIs(s);
  }

  lemma {:induction false} SumAppend(a: Bytes, b: Bytes)
    requires |a| % 2 == 0
    ensures Sum(a + b) == Sum(a) + Sum(b)
  {
    if a == [] {
      assert a + b == b;
    } else {
      SumAppend(a[2..], b);
      assert (a + b)[2..] == a[2..] + b;
    }
  }

  lemma {:induction false} SumBound(b: Bytes)
    ensures Sum(b) <= (|b| + 1) / 2 * 0xFFFF
  {
    if |b| > 1 {
      SumBound(b[2..]);
    }
  }

  /** Up to 128 KiB the 32-bit sum does not wrap. */
  lemma NoWrap(b: Bytes)
    requires |b| <= 0x2_0000
    ensures Sum(b) < WRAP && ChecksumOf(b) == 0xFFFF - Fold(Sum(b))
  {
    hide Sum, Fold;
    SumBound(b);
  }

  /** The running sum over whole words of `b`, and the byte waiting for its partner. */
  ghost predicate Running(b: Bytes, sum: u32, high: Option<byte>) {
    match high
    case None => |b| % 2 == 0 && sum == Wrapped(Sum(b))
    case Some(h) => |b| % 2 == 1 && b[|b| - 1] == h && sum == Wrapped(Sum(b[..|b| - 1]))
  }

  lemma WrapAdd(a: nat, r: nat, w: nat, t: nat)
    requires r == Wrapped(a) && t == a + w
    ensures Wrapped(t) == Wrapped(r + w)
  {
  }

  lemma SumPair(b: Bytes, h: byte, x: byte)
    requires |b| % 2 == 0
    ensures Sum(b + [h, x]) == Sum(b) + (h * 0x100 + x)
  {
    assert [h, x][2..] == [];
    SumAppend(b, [h, x]);
  }

  lemma RunningNext(b: Bytes, sum: u32, high: Option<byte>, x: byte)
    requires Running(b, sum, high)
    ensures Running(b + [x], if high.Some? then Wrapped(sum + (high.value * 0x100 + x)) else sum, if high.Some? then None else Some(x))
  {
    hide Sum, Wrapped;
    match high
    case None => assert (b + [x])[..|b|] == b;
    case Some(h) =>
      var front := b[..|b| - 1];
      assert b + [x] == front + [h, x];
      SumPair(front, h, x);
      WrapAdd(Sum(front), sum, h * 0x100 + x, Sum(b + [x]));
  }

  lemma SumSnoc(b: Bytes, x: byte)
    requires |b| % 2 == 0
    ensures Sum(b + [x]) == Sum(b) + x * 0x100
  {
    SumAppend(b, [x]);
  }

  lemma RunningEnd(b: Bytes, sum: u32, high: Option<byte>)
    requires Running(b, sum, high)
    ensures high.Some? ==> Wrapped(Sum(b)) == Wrapped(sum + high.value * 0x100)
    ensures high.None? ==> Wrapped(Sum(b)) == sum
  {
    hide Sum, Wrapped;
    if high.Some? {
      var front := b[..|b| - 1];
      assert b == front + [high.value];
      SumSnoc(front, high.value);
      WrapAdd(Sum(front), sum, high.value * 0x100, Sum(b));
    }
  }

  /** The checksum of the parts depends only on the bytes they add up to. */
  method ComputeChecksum(parts: seq<Bytes>) returns (c: u16)
    ensures c == ChecksumOf(Joined(parts))
  {
    hide Sum, Running, Wrapped;
    var sum: u32, high: Option<byte> := 0, None;
    ghost var seen: Bytes := [];
    RunningStart();
    for i := 0 to |parts|
      invariant seen == Joined(parts[..i]) && Running(seen, sum, high)
    {
      assert parts[..i + 1] == parts[..i] + [parts[i]];
      JoinedSnoc(parts[..i], parts[i]);
      for j := 0 to |parts[i]|
        invariant seen == Joined(parts[..i]) + parts[i][..j] && Running(seen, sum, high)
      {
        var x := parts[i][j];
        RunningNext(seen, sum, high, x);
        if high.Some? {
          sum, high := Wrapped(sum + (high.value * 0x100 + x)), None;
        } else {
          high := Some(x);
        }
        assert parts[i][..j + 1] == parts[i][..j] + [x];
        seen := seen + [x];
      }
      assert parts[i][..|parts[i]|] == parts[i];
    }
    assert parts[..|parts|] == parts;
    RunningEnd(seen, sum, high);
    if high.Some? {
      sum := Wrapped(sum + high.value * 0x100);
    }
    while sum >= 0x1_0000
      invariant Fold(sum) == Fold(Wrapped(Sum(seen)))
    {
      sum := sum % 0x1_0000 + sum / 0x1_0000;
    }
    return 0xFFFF - sum;
  }

  lemma RunningStart()
    ensures Running([], 0, None) && Joined([]) == []
  {
  }

  // ------------------------------------------------------------------ the frame

  const ETHERNET_LEN := 14
  const IPV4_LEN := 20
  const UDP_LEN := 8

  type Mac = b: Bytes | |b| == 6 witness [0, 0, 0, 0, 0, 0]
  type Ip4 = b: Bytes | |b| == 4 witness [0, 0, 0, 0]

  function IpStart(len: u16): Bytes {
    [0x45, 0] + ToBe16(len) + [0, 0, 0, 0, 64, 17]
  }

  function IpHeader(len: u16, c: u16, source: Ip4, target: Ip4): Bytes {
    IpStart(len) + ToBe16(c) + source + target
  }

  function UdpStart(port: u16, len: u16): Bytes {
    ToBe16(port) + ToBe16(68) + ToBe16(len)
  }

  function Datagram(port: u16, len: u16, c: u16, payload: Bytes): Bytes {
    UdpStart(port, len) + ToBe16(c) + payload
  }

  function Pseudo(source: Ip4, target: Ip4, len: u16): Bytes {
    source + target + [0, 17] + ToBe16(len)
  }

  function Ethernet(target: Mac, source: Mac): Bytes {
    target + source + [0x08, 0x00]
  }

  lemma SumWord(c: u16)
    ensures Sum(ToBe16(c)) == c
  {
    assert ToBe16(c)[2..] == [];
  }

  /** Putting the complement of a sum into an aligned, empty field makes the whole check to zero. */
  lemma Checks(front: Bytes, c: u16, back: Bytes)
    requires |front| % 2 == 0 && |front| + 2 + |back| <= 0x2_0000
    requires c == ChecksumOf(front + ToBe16(0) + back) || (c == 0xFFFF && ChecksumOf(front + ToBe16(0) + back) == 0)
    requires c + Sum(front + ToBe16(0) + back) > 0
    ensures ChecksumOf(front + ToBe16(c) + back) == 0
  {
    hide Sum, Fold, ToBe16;
    var was, now := front + ToBe16(0) + back, front + ToBe16(c) + back;
    NoWrap(was);
    NoWrap(now);
    Spliced(front, 0, back);
    Spliced(front, c, back);
    assert Sum(now) == Sum(was) + c;
    FoldIs(Sum(was));
    Complement(Sum(was), Fold(Sum(was)), c);
    FoldOnes(Sum(now));
  }

  lemma Complement(s: nat, f: u16, c: u16)
    requires s % 0xFFFF == f % 0xFFFF && (c == 0xFFFF - f || (c == 0xFFFF && f == 0xFFFF))
    ensures (s + c) % 0xFFFF == 0
  {
  }

  lemma Spliced(front: Bytes, c: u16, back: Bytes)
    requires |front| % 2 == 0
    ensures Sum(front + ToBe16(c) + back) == Sum(front) + c + Sum(back)
  {
    SumAppend(front + ToBe16(c), back);
    SumAppend(front, ToBe16(c));
    SumWord(c);
  }

  /** Writes bytes over a stretch of the buffer. */
  method CopyInto(a: array<byte>, at: nat, bytes: Bytes)
    requires at + |bytes| <= a.Length
    modifies a
    ensures forall i :: 0 <= i < a.Length ==> a[i] == if at <= i < at + |bytes| then bytes[i - at] else old(a[i])
  {
    forall i | 0 <= i < |bytes| {
      a[at + i] := bytes[i];
    }
  }

  method WriteIpFields(frame: array<byte>, len: u16, source: Ip4, target: Ip4)
    requires frame.Length >= ETHERNET_LEN + IPV4_LEN && forall i :: ETHERNET_LEN <= i < ETHERNET_LEN + IPV4_LEN ==> frame[i] == 0
    modifies frame
    ensures frame[..] == old(frame[..ETHERNET_LEN]) + IpHeader(len, 0, source, target) + old(frame[ETHERNET_LEN + IPV4_LEN..])
  {
    CopyInto(frame, ETHERNET_LEN, [0x45]);
    CopyInto(frame, ETHERNET_LEN + 2, ToBe16(len));
    CopyInto(frame, ETHERNET_LEN + 8, [64]);
    CopyInto(frame, ETHERNET_LEN + 9, [17]);
    assert frame[ETHERNET_LEN..ETHERNET_LEN + 10] == IpStart(len);
    CopyInto(frame, ETHERNET_LEN + 12, source);
    CopyInto(frame, ETHERNET_LEN + 16, target);
  }

  lemma IpPatched(len: u16, c: u16, source: Ip4, target: Ip4)
    ensures |IpHeader(len, 0, source, target)| == IPV4_LEN
    ensures IpHeader(len, c, source, target) == IpHeader(len, 0, source, target)[..10] + ToBe16(c) + IpHeader(len, 0, source, target)[12..]
  {
    hide ToBe16;
  }

  lemma PatchedFrame(was: Bytes, now: Bytes, before: Bytes, ip: Bytes, after: Bytes, w: Bytes)
    requires was == before + ip + after && |before| == ETHERNET_LEN && |ip| == IPV4_LEN && |w| == 2 && |now| == |was|
    requires forall i :: 0 <= i < |was| ==> now[i] == if ETHERNET_LEN + 10 <= i < ETHERNET_LEN + 12 then w[i - (ETHERNET_LEN + 10)] else was[i]
    ensures now == before + (ip[..10] + w + ip[12..]) + after
  {
  }

  lemma JoinedOne(part: Bytes)
    ensures Joined([part]) == part
  {
    JoinedSnoc([], part);
    assert [] + [part] == [part] && [] + part == part;
  }

  method WriteIpHeader(frame: array<byte>, len: u16, source: Ip4, target: Ip4)
    requires frame.Length >= ETHERNET_LEN + IPV4_LEN && forall i :: ETHERNET_LEN <= i < ETHERNET_LEN + IPV4_LEN ==> frame[i] == 0
    modifies frame
    ensures
      var c := ChecksumOf(IpHeader(len, 0, source, target));
      frame[..] == old(frame[..ETHERNET_LEN]) + IpHeader(len, c, source, target) + old(frame[ETHERNET_LEN + IPV4_LEN..])
  {
    hide ChecksumOf, IpHeader, ToBe16, Joined;
    WriteIpFields(frame, len, source, target);
    var ip := frame[ETHERNET_LEN..ETHERNET_LEN + IPV4_LEN];
    IpPatched(len, 0, source, target);
    assert ip == IpHeader(len, 0, source, target);
    var c := ComputeChecksum([ip]);
    JoinedOne(ip);
    IpPatched(len, c, source, target);
    ghost var was := frame[..];
    CopyInto(frame, ETHERNET_LEN + 10, ToBe16(c));
    PatchedFrame(was, frame[..], old(frame[..ETHERNET_LEN]), ip, old(frame[ETHERNET_LEN + IPV4_LEN..]), ToBe16(c));
  }

  method WriteUdp(frame: array<byte>, port: u16, len: u16, source: Ip4, target: Ip4, payload: Bytes)
    requires frame.Length == ETHERNET_LEN + IPV4_LEN + len && len == UDP_LEN + |payload|
    requires forall i :: ETHERNET_LEN + IPV4_LEN <= i < frame.Length ==> frame[i] == 0
    modifies frame
    ensures
      var sum := ChecksumOf(Pseudo(source, target, len) + Datagram(port, len, 0, payload));
      frame[..] == old(frame[..ETHERNET_LEN + IPV4_LEN]) + Datagram(port, len, if sum == 0 then 0xFFFF else sum, payload)
  {
    hide ChecksumOf;
    var start := ETHERNET_LEN + IPV4_LEN;
    ghost var before := frame[..start];
    CopyInto(frame, start, ToBe16(port));
    CopyInto(frame, start + 2, ToBe16(68));
    CopyInto(frame, start + 4, ToBe16(len));
    CopyInto(frame, start + UDP_LEN, payload);
    var udp := frame[start..];
    assert udp == Datagram(port, len, 0, payload);
    var parts: seq<Bytes> := [source, target, [0, 17], ToBe16(len), udp];
    PartsAre(source, target, [0, 17], ToBe16(len), udp);
    var sum := ComputeChecksum(parts);
    CopyInto(frame, start + 6, ToBe16(if sum == 0 then 0xFFFF else sum));
    assert frame[start..] == Datagram(port, len, if sum == 0 then 0xFFFF else sum, payload);
    assert frame[..start] == before;
    assert frame[..] == frame[..start] + frame[start..];
  }

  lemma PartsAre(a: Bytes, b: Bytes, c: Bytes, d: Bytes, e: Bytes)
    ensures Joined([a, b, c, d, e]) == a + b + c + d + e
  {
    JoinedSnoc([], a);
    assert [] + [a] == [a] && [a] + [b] == [a, b] && [a, b] + [c] == [a, b, c];
    assert [a, b, c] + [d] == [a, b, c, d] && [a, b, c, d] + [e] == [a, b, c, d, e];
    JoinedSnoc([a], b);
    JoinedSnoc([a, b], c);
    JoinedSnoc([a, b, c], d);
    JoinedSnoc([a, b, c, d], e);
  }

  /** The IPv4 header of a frame, and its pseudo-header with the datagram, both check to zero. */
  lemma FrameChecks(port: u16, len: u16, source: Ip4, target: Ip4, payload: Bytes)
    requires len == UDP_LEN + |payload| && IPV4_LEN + len <= U16_MAX
    ensures
      var ip := ChecksumOf(IpHeader(IPV4_LEN + len, 0, source, target));
      ChecksumOf(IpHeader(IPV4_LEN + len, ip, source, target)) == 0
    ensures
      var sum := ChecksumOf(Pseudo(source, target, len) + Datagram(port, len, 0, payload));
      ChecksumOf(Pseudo(source, target, len) + Datagram(port, len, if sum == 0 then 0xFFFF else sum, payload)) == 0
  {
    hide ChecksumOf, Sum;
    var ip := ChecksumOf(IpHeader(IPV4_LEN + len, 0, source, target));
    forall c: u16
      ensures IpHeader(IPV4_LEN + len, c, source, target) == IpStart(IPV4_LEN + len) + ToBe16(c) + (source + target)
    {
    }
    StartsPositive(IPV4_LEN + len, source + target);
    Checks(IpStart(IPV4_LEN + len), ip, source + target);
    var front := Pseudo(source, target, len) + UdpStart(port, len);
    var sum := ChecksumOf(Pseudo(source, target, len) + Datagram(port, len, 0, payload));
    var c := if sum == 0 then 0xFFFF else sum;
    assert Pseudo(source, target, len) + Datagram(port, len, 0, payload) == front + ToBe16(0) + payload;
    assert Pseudo(source, target, len) + Datagram(port, len, c, payload) == front + ToBe16(c) + payload;
    Checks(front, c, payload);
  }

  lemma StartsPositive(len: u16, back: Bytes)
    ensures Sum(IpStart(len) + ToBe16(0) + back) > 0
  {
    assert (IpStart(len) + ToBe16(0) + back)[0] == 0x45;
  }

  /** A frame with these sums in it, both of which a receiver finds correct; a UDP sum of zero would mean that there is none. */
  ghost predicate IsFrame(frame: Bytes, sourceMac: Mac, targetMac: Mac, server: Ip4, port: u16, target: Ip4, payload: Bytes, ipSum: u16, udpSum: u16)
  {
    var len := UDP_LEN + |payload|;
    && IPV4_LEN + len <= U16_MAX
    && frame == Ethernet(targetMac, sourceMac) + IpHeader(IPV4_LEN + len, ipSum, server, target) + Datagram(port, len, udpSum, payload)
    && ChecksumOf(IpHeader(IPV4_LEN + len, ipSum, server, target)) == 0
    && ChecksumOf(Pseudo(server, target, len) + Datagram(port, len, udpSum, payload)) == 0 && udpSum != 0
  }

  /** Builds the frame, unless the payload is too long for the length fields. */
  method BuildFrame(sourceMac: Mac, targetMac: Mac, server: Ip4, port: u16, target: Ip4, payload: Bytes) returns (r: Option<Bytes>)
    ensures r.None? <==> |payload| > U16_MAX - IPV4_LEN - UDP_LEN
    ensures r.Some? ==> exists ipSum, udpSum :: IsFrame(r.value, sourceMac, targetMac, server, port, target, payload, ipSum, udpSum)
  {
    hide ChecksumOf, IpHeader, Datagram, Pseudo;
    var len := UDP_LEN + |payload|;
    if len > U16_MAX || IPV4_LEN + len > U16_MAX {
      return None;
    }
    var frame := new byte[ETHERNET_LEN + IPV4_LEN + len](_ => 0);
    CopyInto(frame, 0, targetMac);
    CopyInto(frame, 6, sourceMac);
    CopyInto(frame, 12, ToBe16(0x0800));
    assert frame[..ETHERNET_LEN] == Ethernet(targetMac, sourceMac);
    WriteIpHeader(frame, IPV4_LEN + len, server, target);
    ghost var ipSum := ChecksumOf(IpHeader(IPV4_LEN + len, 0, server, target));
    ghost var front := Ethernet(targetMac, sourceMac) + IpHeader(IPV4_LEN + len, ipSum, server, target);
    HeaderLength(IPV4_LEN + len, ipSum, server, target);
    assert frame[..ETHERNET_LEN + IPV4_LEN] == front;
    WriteUdp(frame, port, len, server, target, payload);
    FrameChecks(port, len, server, target, payload);
    ghost var sum := ChecksumOf(Pseudo(server, target, len) + Datagram(port, len, 0, payload));
    assert IsFrame(frame[..], sourceMac, targetMac, server, port, target, payload, ipSum, if sum == 0 then 0xFFFF else sum);
    return Some(frame[..]);
  }

  lemma HeaderLength(len: u16, c: u16, source: Ip4, target: Ip4)
    ensures |IpHeader(len, c, source, target)| == IPV4_LEN
  {
  }

  // ------------------------------------------------------------------ what a receiver finds

  /** The octets weighted by their place in a 16-bit word. */
  function Weighted(b: Bytes, n: nat): nat
    requires n <= |b|
  {
    if n == 0 then 0
    else
      var x: int := b[n - 1];
      Weighted(b, n - 1) + (if n % 2 == 1 then 256 * x else x)
  }

  lemma {:induction false} SumPrefix(b: Bytes, n: nat)
    requires n <= |b|
    ensures Sum(b[..n]) == Weighted(b, n)
  {
    if n > 0 {
      SumPrefix(b, n - 1);
      var x := b[n - 1];
      assert b[..n] == b[..n - 1] + [x];
      if n % 2 == 1 {
        SumAppend(b[..n - 1], [x]);
      } else {
        var y := b[n - 2];
        assert b[..n - 1] == b[..n - 2] + [y] && b[..n] == b[..n - 2] + [y, x];
        SumAppend(b[..n - 2], [y]);
        SumAppend(b[..n - 2], [y, x]);
        assert Sum([y, x]) == y * 0x100 + x + Sum([y, x][2..]);
      }
    }
  }

  /** The receiver's test (RFC 1071): not all octets are zero and the words add up to a multiple of 65535. */
  predicate Adds(b: Bytes) {
    Weighted(b, |b|) > 0 && Weighted(b, |b|) % 0xFFFF == 0
  }

  lemma ZeroAdds(b: Bytes)
    requires |b| <= 0x2_0000 && ChecksumOf(b) == 0
    ensures Adds(b)
  {
    hide Fold, Sum, ChecksumOf;
    NoWrap(b);
    FoldIs(Sum(b));
    SumPrefix(b, |b|);
    assert b[..|b|] == b;
  }

  /** Every field of a frame is where a receiver looks for it (RFC 791, RFC 768), and both sums are right. */
  lemma FrameReads(frame: Bytes, sourceMac: Mac, targetMac: Mac, server: Ip4, port: u16, target: Ip4, payload: Bytes, ipSum: u16, udpSum: u16)
    requires IsFrame(frame, sourceMac, targetMac, server, port, target, payload, ipSum, udpSum)
    ensures |frame| == 42 + |payload| && frame[0..6] == targetMac && frame[6..12] == sourceMac && frame[12..14] == [8, 0]
    ensures frame[14..16] == [0x45, 0] && frame[16..18] == ToBe16(28 + |payload|) && frame[18..24] == [0, 0, 0, 0, 64, 17]
    ensures frame[26..30] == server && frame[30..34] == target && Adds(frame[14..34])
    ensures frame[34..36] == ToBe16(port) && frame[36..38] == [0, 68] && frame[38..40] == ToBe16(8 + |payload|) && frame[40..42] != [0, 0] && frame[42..] == payload
    ensures Adds(server + target + [0, 17] + ToBe16(8 + |payload|) + frame[34..])
  {
    hide ChecksumOf, Adds;
    var len := UDP_LEN + |payload|;
    var e, i, d := Ethernet(targetMac, sourceMac), IpHeader(IPV4_LEN + len, ipSum, server, target), Datagram(port, len, udpSum, payload);
    HeaderLength(IPV4_LEN + len, ipSum, server, target);
    assert frame[14..34] == i && frame[34..] == d && frame[..14] == e;
    ZeroAdds(i);
    ZeroAdds(Pseudo(server, target, len) + d);
    EthernetReads(frame, e, targetMac, sourceMac);
    HeaderReads(frame, i, IPV4_LEN + len, ipSum, server, target);
    DatagramReads(frame, d, port, len, udpSum, payload);
  }

  lemma Cut(b: Bytes, lo: nat, hi: nat, i: nat, j: nat)
    requires lo <= hi <= |b| && i <= j <= hi - lo
    ensures b[lo..hi][i..j] == b[lo + i..lo + j]
  {
    var x, y := b[lo..hi][i..j], b[lo + i..lo + j];
    assert forall k :: 0 <= k < j - i ==> x[k] == y[k];
  }

  lemma EthernetReads(frame: Bytes, e: Bytes, target: Mac, source: Mac)
    requires |frame| >= 14 && frame[..14] == e == Ethernet(target, source)
    ensures frame[0..6] == target && frame[6..12] == source && frame[12..14] == [8, 0]
  {
    assert frame[0..6] == e[0..6] && frame[6..12] == e[6..12] && frame[12..14] == e[12..14];
  }

  lemma HeaderReads(frame: Bytes, i: Bytes, len: u16, c: u16, source: Ip4, target: Ip4)
    requires |frame| >= 34 && frame[14..34] == i == IpHeader(len, c, source, target)
    ensures frame[14..16] == [0x45, 0] && frame[16..18] == ToBe16(len) && frame[18..24] == [0, 0, 0, 0, 64, 17] && frame[26..30] == source && frame[30..34] == target
  {
    hide ToBe16;
    Cut(frame, 14, 34, 0, 2);
    Cut(frame, 14, 34, 2, 4);
    Cut(frame, 14, 34, 4, 10);
    Cut(frame, 14, 34, 12, 16);
    Cut(frame, 14, 34, 16, 20);
  }

  lemma NotZero(c: u16)
    requires c != 0
    ensures ToBe16(c) != [0, 0]
  {
    if ToBe16(c) == [0, 0] {
      assert FromBe16(ToBe16(c)[0], ToBe16(c)[1]) == 0;
      Be16RoundTrip(c);
    }
  }

  lemma DatagramReads(frame: Bytes, d: Bytes, port: u16, len: u16, c: u16, payload: Bytes)
    requires |frame| >= 42 && frame[34..] == d == Datagram(port, len, c, payload) && c != 0
    ensures frame[34..36] == ToBe16(port) && frame[36..38] == [0, 68] && frame[38..40] == ToBe16(len) && frame[40..42] != [0, 0] && frame[42..] == payload
  {
    assert frame[34..36] == d[0..2] && frame[36..38] == d[2..4] && frame[38..40] == d[4..6] && frame[40..42] == d[6..8] && frame[42..] == d[8..];
    assert d[2..4] == ToBe16(68) && d[6..8] == ToBe16(c);
    NotZero(c);
  }
}
