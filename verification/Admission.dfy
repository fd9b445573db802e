/**
 Admission of encrypted TCP connections: deciding from the first bytes whether a whole ClientHello
 or DNSCrypt frame has arrived, handing those bytes on, and counting connections.
 */
module Admission {
  import opened Basics

  const RECORD_HEADER := 5
  const MAX_RECORD := 16 * 1024
  const MAX_PREFIX := 64 * 1024
  const MAX_DNSCRYPT_QUERY := 8192

  datatype Verdict = Pending | Ready | Bad

  // ------------------------------------------------------------------ TLS records

  /** The header starts a handshake record of legal length. */
  predicate HeaderOk(b: Bytes)
    requires |b| >= RECORD_HEADER
  {
    b[0] == 22 && b[1] == 3 && 0 < FromBe16(b[3], b[4]) <= MAX_RECORD
  }

  function RecordEnd(b: Bytes): nat
    requires |b| >= RECORD_HEADER
  {
    RECORD_HEADER + FromBe16(b[3], b[4])
  }

  /** A complete handshake record comes first. */
  predicate HasRecord(b: Bytes) {
    |b| >= RECORD_HEADER && HeaderOk(b) && RecordEnd(b) <= |b|
  }

  /** The payloads of the first `n` records joined, when there are that many complete ones. */
  function Reassembled(b: Bytes, n: nat): Option<Bytes> {
    if n == 0 then Some([])
    else if !HasRecord(b) then None
    else
      var rest := Reassembled(b[RecordEnd(b)..], n - 1);
      if rest.None? then None else Some(b[RECORD_HEADER..RecordEnd(b)] + rest.value)
  }

  function FromBe24(a: int, b: int, c: int): int {
    a * 0x1_0000 + b * 0x100 + c
  }

  /** Length of the handshake message that starts in `p`: type, 24-bit length, body. */
  function MessageLength(p: Bytes): nat
    requires |p| >= 4
  {
    4 + FromBe24(p[1], p[2], p[3])
  }

  /** A whole ClientHello. */
  predicate Complete(p: Bytes) {
    |p| >= 4 && p[0] == 1 && |p| >= MessageLength(p)
  }

  /** Not a ClientHello, or one that cannot end within the limit. */
  predicate Hopeless(p: Bytes) {
    |p| >= 4 && (p[0] != 1 || MessageLength(p) + RECORD_HEADER > MAX_PREFIX)
  }

  /** Scans records of `b` after payload `p`. */
  function Scan(b: Bytes, p: Bytes): Verdict {
    if |b| < RECORD_HEADER then Pending
    else if !HeaderOk(b) then Bad
    else if RecordEnd(b) > |b| then Pending
    else
      var q := p + b[RECORD_HEADER..RecordEnd(b)];
      if Hopeless(q) then Bad else if Complete(q) then Ready else Scan(b[RecordEnd(b)..], q)
  }

  function TlsState(prefix: Bytes): Verdict {
    if |prefix| > MAX_PREFIX then Bad else Scan(prefix, [])
  }

  /** A verdict other than waiting stays, whatever arrives next. */
  lemma {:induction false} ScanStable(b: Bytes, p: Bytes, more: Bytes)
    requires Scan(b, p) != Pending
    ensures Scan(b + more, p) == Scan(b, p)
    decreases |b|
  {
    assert (b + more)[0] == b[0] && (b + more)[3] == b[3] && (b + more)[4] == b[4];
    if HeaderOk(b) {
      var end := RecordEnd(b);
      assert (b + more)[RECORD_HEADER..end] == b[RECORD_HEADER..end];
      assert (b + more)[end..] == b[end..] + more;
      var q := p + b[RECORD_HEADER..end];
      if !Hopeless(q) && !Complete(q) {
        ScanStable(b[end..], q, more);
      }
    }
  }

  lemma TlsStable(prefix: Bytes, more: Bytes)
    requires TlsState(prefix) != Pending && |prefix| + |more| <= MAX_PREFIX
    ensures TlsState(prefix + more) == TlsState(prefix)
  {
    ScanStable(prefix, [], more);
  }

  /** What has been read only grows, so its message header stays. */
  lemma HeaderStays(p: Bytes, x: Bytes)
    requires |p| >= 4
    ensures (p + x)[0] == p[0] && MessageLength(p + x) == MessageLength(p)
  {
  }

  /** Ready means that some number of records holds a whole ClientHello. */
  lemma {:induction false} ReadyHas(b: Bytes, p: Bytes) returns (n: nat)
    requires Scan(b, p) == Ready
    ensures Reassembled(b, n).Some? && Complete(p + Reassembled(b, n).value)
    decreases |b|
  {
    var end := RecordEnd(b);
    var payload, rest := b[RECORD_HEADER..end], b[end..];
    if Complete(p + payload) {
      n := 1;
      assert Reassembled(rest, 0) == Some([]);
      assert payload + [] == payload;
    } else {
      var m := ReadyHas(rest, p + payload);
      n := m + 1;
      assert (p + payload) + Reassembled(rest, m).value == p + (payload + Reassembled(rest, m).value);
    }
  }

  /** Conversely, records that hold a whole ClientHello within the limit are found; bytes past it do not matter. */
  lemma {:induction false} HasReady(b: Bytes, p: Bytes, n: nat)
    requires Reassembled(b, n).Some? && Complete(p + Reassembled(b, n).value) && !Complete(p)
    requires |p| + |b| <= MAX_PREFIX
    ensures Scan(b, p) == Ready
    decreases n
  {
    assert p + [] == p;
    if n > 0 {
      var end := RecordEnd(b);
      var payload, rest := b[RECORD_HEADER..end], b[end..];
      var q, tail := p + payload, Reassembled(rest, n - 1).value;
      assert p + (payload + tail) == q + tail;
      ReassembledShorter(rest, n - 1);
      if |q| >= 4 {
        HeaderStays(q, tail);
      }
      if !Complete(q) {
        HasReady(rest, q, n - 1);
      }
    }
  }

  lemma {:induction false} ReassembledShorter(b: Bytes, n: nat)
    requires Reassembled(b, n).Some?
    ensures |Reassembled(b, n).value| <= |b|
  {
    if n > 0 {
      ReassembledShorter(b[RecordEnd(b)..], n - 1);
    }
  }

  /** Ready exactly when complete leading records join to a type 1 message with its whole body. */
  lemma ReadyIff(prefix: Bytes)
    ensures TlsState(prefix) == Ready <==>
            |prefix| <= MAX_PREFIX && exists n :: Reassembled(prefix, n).Some? && Complete(Reassembled(prefix, n).value)
  {
    if TlsState(prefix) == Ready {
      var n := ReadyHas(prefix, []);
      assert [] + Reassembled(prefix, n).value == Reassembled(prefix, n).value;
    }
    if |prefix| <= MAX_PREFIX && exists n :: Reassembled(prefix, n).Some? && Complete(Reassembled(prefix, n).value) {
      var n :| Reassembled(prefix, n).Some? && Complete(Reassembled(prefix, n).value);
      assert [] + Reassembled(prefix, n).value == Reassembled(prefix, n).value;
      HasReady(prefix, [], n);
    }
  }

  /** What is left after the first `n` records. */
  function After(b: Bytes, n: nat): Bytes
    requires Reassembled(b, n).Some?
  {
    if n == 0 then b else After(b[RecordEnd(b)..], n - 1)
  }

  /** A record header that is not that of a handshake record of 1 to 16384 bytes (section 5.1 of RFC 8446). */
  predicate WrongHeader(b: Bytes) {
    |b| >= 5 && !(b[0] == 22 && b[1] == 3 && 1 <= FromBe16(b[3], b[4]) <= 16384)
  }

  /** After `n` records the message is none, or cannot end within the limit, or what follows is no handshake record. */
  ghost predicate WrongAfter(b: Bytes, p: Bytes, n: nat) {
    && Reassembled(b, n).Some?
    && (forall m :: 0 < m <= n && Reassembled(b, m).Some? ==> !Complete(p + Reassembled(b, m).value) || (m == n && Hopeless(p + Reassembled(b, m).value)))
    && ((n > 0 && Hopeless(p + Reassembled(b, n).value)) || WrongHeader(After(b, n)))
  }

  lemma {:induction false} BadHas(b: Bytes, p: Bytes) returns (n: nat)
    requires Scan(b, p) == Bad
    ensures WrongAfter(b, p, n)
    decreases |b|
  {
    if !HeaderOk(b) {
      n := 0;
    } else {
      var end := RecordEnd(b);
      var payload, rest := b[RECORD_HEADER..end], b[end..];
      FirstRecord(b, p);
      if Hopeless(p + payload) {
        n := 1;
        OneRecord(b, p);
      } else {
        var m := BadHas(rest, p + payload);
        n := m + 1;
        MoreRecords(b, p, m);
      }
    }
  }

  lemma FirstRecord(b: Bytes, p: Bytes)
    requires HasRecord(b)
    ensures Reassembled(b, 1) == Some(b[RECORD_HEADER..RecordEnd(b)])
  {
    assert Reassembled(b[RecordEnd(b)..], 0) == Some([]);
    assert b[RECORD_HEADER..RecordEnd(b)] + [] == b[RECORD_HEADER..RecordEnd(b)];
  }

  lemma OneRecord(b: Bytes, p: Bytes)
    requires HasRecord(b) && Hopeless(p + b[RECORD_HEADER..RecordEnd(b)])
    ensures WrongAfter(b, p, 1)
  {
    FirstRecord(b, p);
  }

  lemma MoreRecords(b: Bytes, p: Bytes, m: nat)
    requires HasRecord(b) && !Complete(p + b[RECORD_HEADER..RecordEnd(b)])
    requires WrongAfter(b[RecordEnd(b)..], p + b[RECORD_HEADER..RecordEnd(b)], m) && !Hopeless(p + b[RECORD_HEADER..RecordEnd(b)])
    ensures WrongAfter(b, p, m + 1)
  {
    hide Complete, Hopeless, HeaderOk, WrongHeader;
    var payload, rest := b[RECORD_HEADER..RecordEnd(b)], b[RecordEnd(b)..];
    FirstRecord(b, p);
    forall k: nat | 0 < k <= m && Reassembled(rest, k).Some?
      ensures p + Reassembled(b, k + 1).value == (p + payload) + Reassembled(rest, k).value
    {
    }
    assert p + Reassembled(b, m + 1).value == (p + payload) + Reassembled(rest, m).value;
    forall k | 0 < k <= m + 1 && Reassembled(b, k).Some?
      ensures !Complete(p + Reassembled(b, k).value) || (k == m + 1 && Hopeless(p + Reassembled(b, k).value))
    {
      if k > 1 {
        assert Reassembled(rest, k - 1).Some?;
      }
    }
  }

  lemma {:induction false} WrongIsBad(b: Bytes, p: Bytes, n: nat)
    requires WrongAfter(b, p, n)
    ensures Scan(b, p) == Bad
    decreases n
  {
    hide Complete, Hopeless;
    if n > 0 {
      var payload, rest := b[RECORD_HEADER..RecordEnd(b)], b[RecordEnd(b)..];
      FirstRecord(b, p);
      assert Reassembled(b, 1).Some?;
      if !Hopeless(p + payload) {
        FewerRecords(b, p, n - 1);
        WrongIsBad(rest, p + payload, n - 1);
      }
    }
  }

  lemma FewerRecords(b: Bytes, p: Bytes, m: nat)
    requires HasRecord(b) && WrongAfter(b, p, m + 1) && !Hopeless(p + b[RECORD_HEADER..RecordEnd(b)])
    ensures !Complete(p + b[RECORD_HEADER..RecordEnd(b)])
    ensures WrongAfter(b[RecordEnd(b)..], p + b[RECORD_HEADER..RecordEnd(b)], m)
  {
    hide Complete, Hopeless, HeaderOk, WrongHeader;
    var payload, rest := b[RECORD_HEADER..RecordEnd(b)], b[RecordEnd(b)..];
    FirstRecord(b, p);
    assert !Complete(p + Reassembled(b, 1).value);
    assert p + Reassembled(b, m + 1).value == (p + payload) + Reassembled(rest, m).value;
    forall k | 0 < k <= m && Reassembled(rest, k).Some?
      ensures !Complete((p + payload) + Reassembled(rest, k).value) || (k == m && Hopeless((p + payload) + Reassembled(rest, k).value))
    {
      assert Reassembled(b, k + 1).Some?;
      assert p + Reassembled(b, k + 1).value == (p + payload) + Reassembled(rest, k).value;
    }
  }

  /** A connection is refused exactly for a record that is no handshake record, or a message that is no ClientHello or too long. */
  lemma BadIff(prefix: Bytes)
    ensures TlsState(prefix) == Bad <==> |prefix| > 65536 || exists n: nat :: WrongAfter(prefix, [], n)
  {
    hide WrongAfter;
    if |prefix| <= 65536 {
      if TlsState(prefix) == Bad {
        var n := BadHas(prefix, []);
      }
      if n: nat :| WrongAfter(prefix, [], n) {
        WrongIsBad(prefix, [], n);
      }
    }
  }

  /** Looks through the records, keeping only the four header bytes and a count of the rest. */
  method TlsClientHelloPrefixState(prefix: Bytes) returns (v: Verdict)
    ensures v == TlsState(prefix)
  {
    hide Scan, Hopeless, Complete, HeaderOk, RecordEnd, MessageLength, FromBe16;
    if |prefix| > MAX_PREFIX {
      return Bad;
    }
    var offset, header, count := 0, new byte[4](_ => 0), 0;
    var total: Option<nat> := None;
    ghost var p: Bytes := [];
    assert prefix[0..] == prefix;
    NoMessageYet();
    while offset < |prefix|
      invariant offset <= |prefix| && count == |p| && Scan(prefix, []) == Scan(prefix[offset..], p)
      invariant header[..Min(count, 4)] == p[..Min(count, 4)] && !Hopeless(p) && !Complete(p)
      invariant total == if count >= 4 then Some(MessageLength(p)) else None
    {
      ghost var b := prefix[offset..];
      ScanOnce(b, p);
      if |prefix| - offset < RECORD_HEADER {
        return Pending;
      }
      RecordAt(prefix, offset);
      if prefix[offset] != 22 || prefix[offset + 1] != 3 {
        return Bad;
      }
      var len := FromBe16(prefix[offset + 3], prefix[offset + 4]);
      if len == 0 || len > MAX_RECORD {
        return Bad;
      }
      var end := offset + RECORD_HEADER + len;
      if end > |prefix| {
        return Pending;
      }
      var payload := prefix[offset + RECORD_HEADER..end];
      ghost var q := p + payload;
      CopyHeader(header, count, payload, p);
      count := count + len;
      total, v := Weigh(header, count, total, p, q);
      if v != Pending {
        return;
      }
      p, offset := q, end;
    }
    ScanOnce([], p);
    assert prefix[offset..] == [];
    return Pending;
  }

  /** The record at an offset, read off the whole. */
  lemma RecordAt(prefix: Bytes, offset: nat)
    requires offset + RECORD_HEADER <= |prefix|
    ensures
      var b, len := prefix[offset..], FromBe16(prefix[offset + 3], prefix[offset + 4]);
      && (HeaderOk(b) <==> prefix[offset] == 22 && prefix[offset + 1] == 3 && 0 < len <= MAX_RECORD)
      && RecordEnd(b) == RECORD_HEADER + len
      && (HasRecord(b) ==>
            && b[RECORD_HEADER..RecordEnd(b)] == prefix[offset + RECORD_HEADER..offset + RecordEnd(b)]
            && b[RecordEnd(b)..] == prefix[offset + RecordEnd(b)..])
  {
    hide FromBe16;
  }

  lemma NoMessageYet()
    ensures !Hopeless([]) && !Complete([])
  {
  }

  /** Judges the message by its header, once that is there, and by the bytes counted. */
  method Weigh(header: array<byte>, count: nat, total: Option<nat>, ghost p: Bytes, ghost q: Bytes) returns (total': Option<nat>, v: Verdict)
    requires header.Length == 4 && count == |q| && header[..Min(count, 4)] == q[..Min(count, 4)]
    requires |p| <= |q| && p == q[..|p|] && !Hopeless(p) && total == if |p| >= 4 then Some(MessageLength(p)) else None
    ensures v == if Hopeless(q) then Bad else if Complete(q) then Ready else Pending
    ensures v == Pending ==> total' == if |q| >= 4 then Some(MessageLength(q)) else None
  {
    total' := total;
    if total.None? && count >= 4 {
      assert forall i :: 0 <= i < 4 ==> header[i] == header[..4][i] == q[..4][i] == q[i];
      if header[0] != 1 {
        return None, Bad;
      }
      var length := 4 + FromBe24(header[1], header[2], header[3]);
      if length + RECORD_HEADER > MAX_PREFIX {
        return None, Bad;
      }
      total' := Some(length);
    }
    v := if total'.Some? && count >= total'.value then Ready else Pending;
  }

  lemma ScanOnce(b: Bytes, p: Bytes)
    ensures |b| < RECORD_HEADER ==> Scan(b, p) == Pending
    ensures |b| >= RECORD_HEADER && !HeaderOk(b) ==> Scan(b, p) == Bad
    ensures |b| >= RECORD_HEADER && HeaderOk(b) && RecordEnd(b) > |b| ==> Scan(b, p) == Pending
    ensures HasRecord(b) ==>
      var q := p + b[RECORD_HEADER..RecordEnd(b)];
      Scan(b, p) == if Hopeless(q) then Bad else if Complete(q) then Ready else Scan(b[RecordEnd(b)..], q)
  {
  }

  /** Fills what is still missing of the four header bytes. */
  method CopyHeader(header: array<byte>, count: nat, payload: Bytes, ghost p: Bytes)
    requires header.Length == 4 && count == |p| && header[..Min(count, 4)] == p[..Min(count, 4)]
    modifies header
    ensures
      var q := p + payload;
      header[..Min(|q|, 4)] == q[..Min(|q|, 4)]
  {
    if count < 4 {
      var copy := Min(4 - count, |payload|);
      ghost var before := header[..count];
      forall i | 0 <= i < copy {
        header[count + i] := payload[i];
      }
      assert header[..count] == before;
      assert header[..count + copy] == before + payload[..copy];
    }
  }

  // ------------------------------------------------------------------ DNSCrypt frames

  function DnscryptState(prefix: Bytes): Verdict {
    if |prefix| < 2 then Pending
    else
      var len := FromBe16(prefix[0], prefix[1]);
      if len == 0 || len > MAX_DNSCRYPT_QUERY then Bad
      else if |prefix| >= len + 2 then Ready else Pending
  }

  lemma DnscryptStable(prefix: Bytes, more: Bytes)
    requires DnscryptState(prefix) != Pending
    ensures DnscryptState(prefix + more) == DnscryptState(prefix)
  {
    assert (prefix + more)[0] == prefix[0] && (prefix + more)[1] == prefix[1];
  }

  /** The length in front: nothing to go by before two bytes, then ready or refused by it. */
  lemma DnscryptLaw(prefix: Bytes)
    ensures
      var n := if |prefix| >= 2 then Length16(prefix) else 0;
      && (DnscryptState(prefix) == Bad <==> |prefix| >= 2 && (n < 1 || n > 8192))
      && (DnscryptState(prefix) == Ready <==> |prefix| >= 2 && 1 <= n <= 8192 && |prefix| >= 2 + n)
  {
  }

  function Length16(b: Bytes): int
    requires |b| >= 2
  {
    var hi: int, lo: int := b[0], b[1];
    hi * 256 + lo
  }

  // ------------------------------------------------------------------ bytes arriving in pieces

  datatype Protocol = Tls | Dnscrypt

  function State(prefix: Bytes, protocol: Protocol): Verdict {
    if protocol.Tls? then TlsState(prefix) else DnscryptState(prefix)
  }

  function Limit(protocol: Protocol): nat {
    if protocol.Tls? then MAX_PREFIX else MAX_DNSCRYPT_QUERY + 2
  }

  /** What a connection with these bytes read is told; one that is full and still undecided is refused. */
  function Outcome(prefix: Bytes, protocol: Protocol): Verdict {
    var v := State(prefix, protocol);
    if v == Pending && |prefix| >= Limit(protocol) then Bad else v
  }

  /** Every read takes at most what still fits, and no more than the scratch buffer holds. */
  function ReadSize(have: nat, ready: nat, protocol: Protocol): nat {
    if have < Limit(protocol) then Min(Min(Limit(protocol) - have, 2048), ready) else 0
  }

  /**
   Collects pieces as they arrive until the verdict is out; what was collected is kept for the handler, the rest stays
   on the connection. The outcome depends only on the bytes, up to the limit, and not on how they were cut.
   */
  method Collect(pieces: seq<Bytes>, protocol: Protocol) returns (prefix: Bytes, rest: seq<Bytes>, v: Verdict)
    ensures prefix + Joined(rest) == Joined(pieces) && |prefix| <= Limit(protocol)
    ensures
      var all := Joined(pieces);
      v == Outcome(all[..Min(|all|, Limit(protocol))], protocol) && v == Outcome(prefix, protocol)
    ensures v == Pending ==> rest == []
  {
    hide State, Limit;
    NothingYet(protocol);
    prefix, rest, v := [], pieces, Outcome([], protocol);
    while v == Pending && rest != []
      invariant prefix + Joined(rest) == Joined(pieces) && |prefix| <= Limit(protocol) && v == Outcome(prefix, protocol)
      decreases |Joined(rest)| + |rest|
    {
      var size := ReadSize(|prefix|, |rest[0]|, protocol);
      var left := if size < |rest[0]| then [rest[0][size..]] + rest[1..] else rest[1..];
      Reads(prefix, rest, size, left);
      prefix, rest := prefix + rest[0][..size], left;
      v := Outcome(prefix, protocol);
    }
    Settles(prefix, Joined(rest), protocol);
  }

  lemma Reads(prefix: Bytes, rest: seq<Bytes>, size: nat, left: seq<Bytes>)
    requires rest != [] && size <= |rest[0]| && left == if size < |rest[0]| then [rest[0][size..]] + rest[1..] else rest[1..]
    ensures (prefix + rest[0][..size]) + Joined(left) == prefix + Joined(rest) && |Joined(rest)| == size + |Joined(left)|
  {
    var now, later := rest[0][..size], rest[0][size..];
    assert rest[0] == now + later;
    if size < |rest[0]| {
      assert left[0] == later && left[1..] == rest[1..];
      assert Joined(left) == later + Joined(rest[1..]);
    }
    assert Joined(rest) == now + (later + Joined(rest[1..]));
  }

  /** What was read settles the outcome of all that fits the limit. */
  lemma Settles(prefix: Bytes, more: Bytes, protocol: Protocol)
    requires |prefix| <= Limit(protocol) && (Outcome(prefix, protocol) == Pending ==> more == [])
    ensures var all := prefix + more; Outcome(all[..Min(|all|, Limit(protocol))], protocol) == Outcome(prefix, protocol)
  {
    hide State;
    var all := prefix + more;
    var end := Min(|all|, Limit(protocol));
    assert all[..end] == prefix + more[..end - |prefix|];
    if State(prefix, protocol) != Pending {
      Stable(prefix, more[..end - |prefix|], protocol);
    } else {
      assert all[..end] == prefix;
    }
  }

  lemma NothingYet(protocol: Protocol)
    ensures State([], protocol) == Pending && Limit(protocol) > 0
  {
  }

  lemma Stable(prefix: Bytes, more: Bytes, protocol: Protocol)
    requires State(prefix, protocol) != Pending && |prefix| + |more| <= Limit(protocol)
    ensures State(prefix + more, protocol) == State(prefix, protocol)
  {
    if protocol.Tls? {
      TlsStable(prefix, more);
    } else {
      DnscryptStable(prefix, more);
    }
  }

  // ------------------------------------------------------------------ replaying what was read ahead

  /** A connection whose first bytes were read before the handler got it. */
  class PrefixedTcp {
    const prefix: Bytes
    var offset: nat
    var stream: Bytes  // what the connection will still deliver

    ghost predicate Valid()
      reads this
    {
      offset <= |prefix|
    }

    /** What the handler has yet to see. */
    ghost function Unread(): Bytes
      requires Valid()
      reads this
    {
      prefix[offset..] + stream
    }

    constructor (stream: Bytes, prefix: Bytes)
      ensures Valid() && Unread() == prefix + stream
    {
      this.prefix, this.stream, offset := prefix, stream, 0;
    }

    /** Reads into a buffer of `size` bytes; `ready` bounds what the connection has at hand. Nothing is lost or repeated. */
    method Read(size: nat, ready: nat) returns (got: Bytes)
      requires Valid()
      modifies this
      ensures Valid() && old(Unread()) == got + Unread() && |got| <= size
      ensures size > 0 && (old(offset) < |prefix| || ready > 0) && old(Unread()) != [] ==> got != []
    {
      if offset < |prefix| {
        var count := Min(|prefix| - offset, size);
        got := prefix[offset..offset + count];
        offset := offset + count;
        return;
      }
      var count := Min(Min(size, ready), |stream|);
      got, stream := stream[..count], stream[count..];
    }

    /** Any sequence of reads delivers the prefix and then the stream, in order. */
    method ReadMany(sizes: seq<(nat, nat)>) returns (all: Bytes)
      requires Valid()
      modifies this
      ensures Valid() && old(Unread()) == all + Unread()
    {
      all := [];
      for i := 0 to |sizes|
        invariant Valid() && old(Unread()) == all + Unread()
      {
        var got := Read(sizes[i].0, sizes[i].1);
        all := all + got;
      }
    }
  }

  // ------------------------------------------------------------------ connection counts

  datatype Address = V4(a: u32) | V6(b: u128)

  const MAPPED: u128 := 0xFFFF_0000_0000

  /** An IPv4-mapped IPv6 address counts as the IPv4 address. */
  function Canonical(ip: Address): Address {
    if ip.V6? && MAPPED <= ip.b <= MAPPED + U32_MAX then V4(ip.b - MAPPED) else ip
  }

  /** Shares out connections; `held` is the multiset of addresses for which a guard is alive. */
  class ConnectionLimiter {
    const maxTotal: nat
    const maxPerIp: nat
    var total: nat
    var perIp: map<Address, nat>
    ghost var held: multiset<Address>

    ghost predicate Valid()
      reads this
    {
      && total == |held| <= maxTotal
      && (forall ip :: ip in perIp <==> ip in held)
      && (forall ip :: ip in perIp ==> perIp[ip] == held[ip] <= maxPerIp)
    }

    constructor (maxTotal: nat, maxPerIp: nat)
      ensures Valid() && held == multiset{}
      ensures this.maxTotal == (if maxTotal == 0 then 1 else maxTotal) && this.maxPerIp == (if maxPerIp == 0 then 1 else maxPerIp)
    {
      this.maxTotal := if maxTotal == 0 then 1 else maxTotal;
      this.maxPerIp := if maxPerIp == 0 then 1 else maxPerIp;
      total, perIp, held := 0, map[], multiset{};
    }

    /** Takes a share unless the total or the address is at its limit. */
    method TryAcquire(ip: Address) returns (guard: Option<Address>)
      requires Valid()
      modifies this
      ensures Valid()
      ensures guard == if |old(held)| < maxTotal && old(held)[Canonical(ip)] < maxPerIp then Some(Canonical(ip)) else None
      ensures held == if guard.Some? then old(held) + multiset{guard.value} else old(held)
    {
      var key := Canonical(ip);
      var count := if key in perIp then perIp[key] else 0;
      if total >= maxTotal || count >= maxPerIp {
        return None;
      }
      total := total + 1;
      perIp := perIp[key := count + 1];
      held := held + multiset{key};
      return Some(key);
    }

    /** A guard goes away and gives back its share. */
    method Release(guard: Address)
      requires Valid() && guard in held
      modifies this
      ensures Valid() && held == old(held) - multiset{guard}
    {
      total := total - 1;
      if guard in perIp {
        var count := perIp[guard] - 1;
        perIp := if count == 0 then perIp - {guard} else perIp[guard := count];
      }
      held := held - multiset{guard};
    }
  }
}
