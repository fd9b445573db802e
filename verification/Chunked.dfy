/**
 Chunked transfer coding: a resumable scan that finds the end of a body while it arrives, and the
 decoder that later takes the body apart. `ok` is the check of trailer fields, a function of their
 bytes alone; everything here holds whatever it accepts.
 */
module Chunked {
  import opened Basics

  const MAX_HEADER_LINE := 8 * 1024
  const USIZE_MAX := U64_MAX
  const CRLF: Bytes := [13, 10]
  const BLANK: Bytes := [13, 10, 13, 10]

  type Check = Bytes -> bool

  // ------------------------------------------------------------------ searching

  predicate At(hay: Bytes, needle: Bytes, i: nat) {
    i + |needle| <= |hay| && hay[i..i + |needle|] == needle
  }

  /** The first occurrence at or after `from`. */
  function Find(hay: Bytes, needle: Bytes, from: nat): (r: Option<nat>)
    ensures r.Some? ==> from <= r.value && At(hay, needle, r.value) && forall j :: from <= j < r.value ==> !At(hay, needle, j)
    ensures r.None? ==> forall j :: from <= j ==> !At(hay, needle, j)
    decreases |hay| - from
  {
    if from + |needle| > |hay| then None
    else if hay[from..from + |needle|] == needle then Some(from)
    else Find(hay, needle, from + 1)
  }

  lemma AtAppend(hay: Bytes, more: Bytes, needle: Bytes, i: nat)
    requires i + |needle| <= |hay|
    ensures At(hay + more, needle, i) <==> At(hay, needle, i)
  {
    assert (hay + more)[i..i + |needle|] == hay[i..i + |needle|];
  }

  /** What was found stays found, in the same place. */
  lemma FindAppend(hay: Bytes, more: Bytes, needle: Bytes, from: nat)
    requires Find(hay, needle, from).Some?
    ensures Find(hay + more, needle, from) == Find(hay, needle, from)
  {
    hide Find, At;
    var k := Find(hay, needle, from).value;
    AtFits(hay, needle, k);
    forall j | from <= j <= k
      ensures At(hay + more, needle, j) <==> At(hay, needle, j)
    {
      AtAppend(hay, more, needle, j);
    }
  }

  lemma AtFits(hay: Bytes, needle: Bytes, i: nat)
    requires At(hay, needle, i)
    ensures i + |needle| <= |hay|
  {
  }

  // ------------------------------------------------------------------ chunk sizes

  predicate IsHex(b: byte) {
    48 <= b <= 57 || 65 <= b <= 70 || 97 <= b <= 102
  }

  function HexValue(b: byte): nat
    requires IsHex(b)
  {
    if b <= 57 then b - 48 else if b <= 70 then b - 55 else b - 87
  }

  function ParseHex(hex: Bytes): nat
    requires forall i :: 0 <= i < |hex| ==> IsHex(hex[i])
  {
    if hex == [] then 0 else ParseHex(hex[..|hex| - 1]) * 16 + HexValue(hex[|hex| - 1])
  }

  /** The size a chunk line gives; nothing when it is malformed or too large. */
  function ChunkSize(line: Bytes): Option<nat> {
    if |line| > MAX_HEADER_LINE then None
    else
      var semicolon := Find(line, [59], 0);
      var end := if semicolon.Some? then semicolon.value else |line|;
      if end == 0 || exists i :: 0 <= i < end && !IsHex(line[i]) then None
      else if exists i :: end <= i < |line| && (line[i] < 33 || line[i] == 127) then None
      else if ParseHex(line[..end]) > USIZE_MAX then None
      else Some(ParseHex(line[..end]))
  }

  // ------------------------------------------------------------------ the scan

  datatype Verdict = Waiting | Done(end: nat) | Broken

  /** One turn of the scan: it stops, or passes over a chunk of data. */
  datatype Turn = Stop(v: Verdict) | Chunk(start: nat, size: nat, next: nat)

  function Last(ok: Check, data: Bytes, pos: nat): Verdict {
    if |data| < pos + 2 then Waiting
    else if At(data, CRLF, pos) then Done(pos + 2)
    else
      var end := Find(data, BLANK, pos);
      if end.None? then Waiting
      else if !ok(data[pos..end.value]) then Broken
      else Done(end.value + 4)
  }

  function TurnAt(ok: Check, data: Bytes, pos: nat): (t: Turn)
    ensures t.Chunk? ==> pos < t.start && t.size > 0 && t.next == t.start + t.size + 2 <= |data|
  {
    var eol := Find(data, CRLF, pos);
    if eol.None? then Stop(Waiting)
    else
      var size := ChunkSize(data[pos..eol.value]);
      if size.None? then Stop(Broken)
      else if size.value == 0 then Stop(Last(ok, data, eol.value + 2))
      else
        var next := eol.value + 2 + size.value + 2;
        if next > USIZE_MAX then Stop(Broken)
        else if |data| < next then Stop(Waiting)
        else if !At(data, CRLF, next - 2) then Stop(Broken)
        else Chunk(eol.value + 2, size.value, next)
  }

  function Scan(ok: Check, data: Bytes, pos: nat): Verdict
    decreases |data| - pos
  {
    match TurnAt(ok, data, pos)
    case Stop(v) => v
    case Chunk(_, _, next) => Scan(ok, data, next)
  }

  /** Where a later scan takes up: after the last whole chunk. */
  function Resume(ok: Check, data: Bytes, pos: nat): (r: nat)
    ensures pos <= r && (pos <= |data| ==> r <= |data|)
    decreases |data| - pos
  {
    match TurnAt(ok, data, pos)
    case Stop(_) => pos
    case Chunk(_, _, next) => Resume(ok, data, next)
  }

  /** The data of the chunks from `pos` on. */
  function Payload(ok: Check, data: Bytes, pos: nat): Bytes
    decreases |data| - pos
  {
    match TurnAt(ok, data, pos)
    case Stop(_) => []
    case Chunk(start, size, next) => data[start..start + size] + Payload(ok, data, next)
  }

  lemma LastStable(ok: Check, data: Bytes, more: Bytes, pos: nat)
    requires Last(ok, data, pos) != Waiting
    ensures Last(ok, data + more, pos) == Last(ok, data, pos)
  {
    hide Find;
    AtAppend(data, more, CRLF, pos);
    if !At(data, CRLF, pos) {
      FindAppend(data, more, BLANK, pos);
      var end := Find(data, BLANK, pos).value;
      assert (data + more)[pos..end] == data[pos..end];
    }
  }

  /** A turn that does not wait for bytes is not changed by more of them. */
  lemma TurnStable(ok: Check, data: Bytes, more: Bytes, pos: nat)
    requires TurnAt(ok, data, pos) != Stop(Waiting)
    ensures TurnAt(ok, data + more, pos) == TurnAt(ok, data, pos)
  {
    hide Find, ChunkSize, Last, At;
    var eol := Find(data, CRLF, pos).value;
    FindAppend(data, more, CRLF, pos);
    AtFits(data, CRLF, eol);
    assert (data + more)[pos..eol] == data[pos..eol];
    var size := ChunkSize(data[pos..eol]);
    if size.Some? {
      if size.value == 0 {
        LastStable(ok, data, more, eol + 2);
      } else if eol + 2 + size.value + 2 <= |data| {
        AtAppend(data, more, CRLF, eol + 2 + size.value);
      }
    }
  }

  /** A verdict stays, whatever arrives next. */
  lemma {:induction false} ScanStable(ok: Check, data: Bytes, more: Bytes, pos: nat)
    requires Scan(ok, data, pos) != Waiting
    ensures Scan(ok, data + more, pos) == Scan(ok, data, pos)
    decreases |data| - pos
  {
    hide TurnAt;
    TurnStable(ok, data, more, pos);
    var t := TurnAt(ok, data, pos);
    if t.Chunk? {
      ScanStable(ok, data, more, t.next);
    }
  }

  /** Taking up after the last whole chunk is as good as starting over. */
  lemma {:induction false} ResumeIsExact(ok: Check, data: Bytes, more: Bytes, pos: nat)
    ensures Scan(ok, data + more, Resume(ok, data, pos)) == Scan(ok, data + more, pos)
    ensures Resume(ok, data + more, Resume(ok, data, pos)) == Resume(ok, data + more, pos)
    decreases |data| - pos
  {
    hide TurnAt;
    var t := TurnAt(ok, data, pos);
    if t.Chunk? {
      TurnStable(ok, data, more, pos);
      ResumeIsExact(ok, data, more, t.next);
    }
  }

  method ChunkedWireLenFrom(ok: Check, data: Bytes, completed: nat) returns (v: Verdict, completed': nat)
    ensures completed > |data| ==> v == Broken && completed' == completed
    ensures completed <= |data| ==> v == Scan(ok, data, completed) && completed' == Resume(ok, data, completed)
  {
    hide Find, ChunkSize, At;
    var pos := completed;
    completed' := completed;
    if pos > |data| {
      return Broken, completed';
    }
    while true
      invariant pos == completed' <= |data|
      invariant Scan(ok, data, pos) == Scan(ok, data, completed) && Resume(ok, data, pos) == Resume(ok, data, completed)
      decreases |data| - pos
    {
      var eol := Find(data, CRLF, pos);
      if eol.None? {
        return Waiting, completed';
      }
      AtFits(data, CRLF, eol.value);
      var size := ChunkSize(data[pos..eol.value]);
      if size.None? {
        return Broken, completed';
      }
      if size.value == 0 {
        return Last(ok, data, eol.value + 2), completed';
      }
      var next := eol.value + 2 + size.value + 2;
      if next > USIZE_MAX {
        return Broken, completed';
      }
      if |data| < next {
        return Waiting, completed';
      }
      if !At(data, CRLF, next - 2) {
        return Broken, completed';
      }
      pos, completed' := next, next;
    }
  }

  /** Whether the body is complete, asked again after each piece; only the position is remembered in between. */
  method Receive(ok: Check, pieces: seq<Bytes>) returns (v: Verdict)
    ensures v == Scan(ok, Joined(pieces), 0)
  {
    var body, position := [], 0;
    v, position := ChunkedWireLenFrom(ok, body, position);
    for n := 0 to |pieces|
      invariant body == Joined(pieces[..n]) && v == Scan(ok, body, 0) == Waiting && position == Resume(ok, body, 0)
    {
      ResumeIsExact(ok, body, pieces[n], 0);
      assert pieces[..n + 1] == pieces[..n] + [pieces[n]];
      JoinedSnoc(pieces[..n], pieces[n]);
      body := body + pieces[n];
      v, position := ChunkedWireLenFrom(ok, body, position);
      if v != Waiting {
        assert pieces == pieces[..n + 1] + pieces[n + 1..];
        JoinedAppend(pieces[..n + 1], pieces[n + 1..]);
        ScanStable(ok, body, Joined(pieces[n + 1..]), 0);
        return;
      }
    }
    assert pieces[..|pieces|] == pieces;
  }

  // ------------------------------------------------------------------ the decoder

  function Decode(ok: Check, data: Bytes): Option<Bytes>
    decreases |data|
  {
    var eol := Find(data, CRLF, 0);
    if eol.None? then None
    else
      var size, rest := ChunkSize(data[..eol.value]), data[eol.value + 2..];
      if size.None? then None
      else if size.value == 0 then (if Trailed(ok, rest) then Some([]) else None)
      else if size.value + 2 > USIZE_MAX || |rest| < size.value + 2 || !At(rest, CRLF, size.value) then None
      else
        After(rest[..size.value], Decode(ok, rest[size.value + 2..]))
  }

  function After(front: Bytes, tail: Option<Bytes>): Option<Bytes> {
    if tail.None? then None else Some(front + tail.value)
  }

  /** The last chunk is followed by an empty line, or by trailer fields and an empty line, and nothing else. */
  predicate Trailed(ok: Check, rest: Bytes) {
    rest == CRLF || var end := Find(rest, BLANK, 0); end.Some? && end.value + 4 == |rest| && ok(rest[..end.value])
  }

  method DecodeChunked(ok: Check, data: Bytes) returns (out: Option<Bytes>)
    ensures out == Decode(ok, data)
  {
    hide Find, ChunkSize, At, Trailed;
    var rest, sofar: Bytes := data, [];
    assert Decode(ok, data) == After([], Decode(ok, data)) by {
      assert Decode(ok, data).Some? ==> [] + Decode(ok, data).value == Decode(ok, data).value;
    }
    while true
      invariant Decode(ok, data) == After(sofar, Decode(ok, rest))
      decreases |rest|
    {
      var eol := Find(rest, CRLF, 0);
      if eol.None? {
        return None;
      }
      AtFits(rest, CRLF, eol.value);
      var size := ChunkSize(rest[..eol.value]);
      if size.None? {
        return None;
      }
      var after := rest[eol.value + 2..];
      if size.value == 0 {
        assert sofar + [] == sofar;
        return if Trailed(ok, after) then Some(sofar) else None;
      }
      if size.value + 2 > USIZE_MAX || |after| < size.value + 2 || !At(after, CRLF, size.value) {
        return None;
      }
      ghost var tail := Decode(ok, after[size.value + 2..]);
      assert tail.Some? ==> sofar + (after[..size.value] + tail.value) == (sofar + after[..size.value]) + tail.value;
      sofar := sofar + after[..size.value];
      rest := after[size.value + 2..];
    }
  }

  /** Searching a cut-out finds the same place as searching the whole, when the place is inside. */
  lemma FindWithin(data: Bytes, needle: Bytes, pos: nat, n: nat)
    requires pos <= n <= |data| && Find(data, needle, pos).Some? && Find(data, needle, pos).value + |needle| <= n
    ensures Find(data[pos..n], needle, 0) == Some(Find(data, needle, pos).value - pos)
  {
    hide Find, At;
    var k := Find(data, needle, pos).value;
    forall j | 0 <= j <= k - pos
      ensures At(data[pos..n], needle, j) <==> At(data, needle, pos + j)
    {
      AtWithin(data, needle, pos, n, j);
    }
    AtWithin(data, needle, pos, n, k - pos);
  }

  lemma CutTwice(data: Bytes, a: nat, b: nat, c: nat, d: nat)
    requires a <= b <= |data| && c <= d <= b - a
    ensures data[a..b][c..d] == data[a + c..a + d]
  {
    var x, y := data[a..b][c..d], data[a + c..a + d];
    assert forall i :: 0 <= i < d - c ==> x[i] == y[i];
  }

  lemma AtWithin(data: Bytes, needle: Bytes, pos: nat, n: nat, j: nat)
    requires pos <= n <= |data| && pos + j + |needle| <= n
    ensures At(data[pos..n], needle, j) <==> At(data, needle, pos + j)
  {
    CutTwice(data, pos, n, j, j + |needle|);
  }

  lemma LastDecodes(ok: Check, data: Bytes, pos: nat)
    requires Last(ok, data, pos).Done?
    ensures pos <= Last(ok, data, pos).end <= |data| && Trailed(ok, data[pos..Last(ok, data, pos).end])
  {
    hide Find;
    var n := Last(ok, data, pos).end;
    if !At(data, CRLF, pos) {
      FindWithin(data, BLANK, pos, n);
      assert data[pos..n][..n - 4 - pos] == data[pos..n - 4];
    }
  }

  /** Decoding a cut-out that holds a whole chunk takes that chunk off. */
  lemma ChunkDecodes(ok: Check, data: Bytes, pos: nat, n: nat)
    requires TurnAt(ok, data, pos).Chunk? && TurnAt(ok, data, pos).next <= n <= |data|
    ensures
      var t := TurnAt(ok, data, pos);
      Decode(ok, data[pos..n]) == After(data[t.start..t.start + t.size], Decode(ok, data[t.next..n]))
  {
    hide Find, ChunkSize, At, Decode;
    var eol := Find(data, CRLF, pos).value;
    var t, cut := TurnAt(ok, data, pos), data[pos..n];
    FindWithin(data, CRLF, pos, n);
    assert cut[..eol - pos] == data[pos..eol];
    AtWithin(data, CRLF, pos, n, t.start - pos + t.size);
    DecodeChunk(ok, cut, eol - pos, t.size);
    CutTwice(data, pos, n, t.start - pos, t.start - pos + t.size);
    CutTwice(data, pos, n, t.next - pos, n - pos);
  }

  lemma DecodeChunk(ok: Check, cut: Bytes, eol: nat, size: nat)
    requires Find(cut, CRLF, 0) == Some(eol) && ChunkSize(cut[..eol]) == Some(size) && 0 < size <= USIZE_MAX - 2
    requires eol + 2 + size + 2 <= |cut| && At(cut, CRLF, eol + 2 + size)
    ensures Decode(ok, cut) == After(cut[eol + 2..eol + 2 + size], Decode(ok, cut[eol + 2 + size + 2..]))
  {
    hide Find, ChunkSize, At;
    var rest := cut[eol + 2..];
    assert rest == cut[eol + 2..|cut|];
    AtWithin(cut, CRLF, eol + 2, |cut|, size);
    assert rest[..size] == cut[eol + 2..eol + 2 + size];
    assert rest[size + 2..] == cut[eol + 2 + size + 2..];
  }

  lemma EndDecodes(ok: Check, data: Bytes, pos: nat)
    requires TurnAt(ok, data, pos).Stop? && TurnAt(ok, data, pos).v.Done?
    ensures pos <= TurnAt(ok, data, pos).v.end <= |data|
    ensures Decode(ok, data[pos..TurnAt(ok, data, pos).v.end]) == Some([])
  {
    hide Find, ChunkSize, At, Last, Trailed;
    var eol, n := Find(data, CRLF, pos).value, TurnAt(ok, data, pos).v.end;
    LastDecodes(ok, data, eol + 2);
    var cut := data[pos..n];
    FindWithin(data, CRLF, pos, n);
    assert cut[..eol - pos] == data[pos..eol];
    assert cut[eol - pos + 2..] == data[eol + 2..n];
  }

  /** The decoder accepts exactly the bytes up to the end the scan found, and yields the data of the chunks. */
  lemma {:induction false} DoneDecodes(ok: Check, data: Bytes, pos: nat)
    requires Scan(ok, data, pos).Done?
    ensures pos <= Scan(ok, data, pos).end <= |data|
    ensures Decode(ok, data[pos..Scan(ok, data, pos).end]) == Some(Payload(ok, data, pos))
    decreases |data| - pos
  {
    hide TurnAt, Decode;
    var t := TurnAt(ok, data, pos);
    if t.Chunk? {
      DoneDecodes(ok, data, t.next);
      ChunkDecodes(ok, data, pos, Scan(ok, data, pos).end);
    } else {
      EndDecodes(ok, data, pos);
    }
  }

  /** The trailer check turns down a block that is empty or starts with an empty line. */
  ghost predicate RefusesBlank(ok: Check) {
    forall t :: t == [] || At(t, CRLF, 0) ==> !ok(t)
  }

  lemma FindSame(data: Bytes, needle: Bytes, pos: nat)
    requires pos <= |data|
    ensures Find(data[pos..], needle, 0).Some? <==> Find(data, needle, pos).Some?
    ensures Find(data, needle, pos).Some? ==> Find(data[pos..], needle, 0) == Some(Find(data, needle, pos).value - pos)
  {
    hide Find, At;
    assert data[pos..] == data[pos..|data|];
    if Find(data, needle, pos).Some? {
      AtFits(data, needle, Find(data, needle, pos).value);
      FindWithin(data, needle, pos, |data|);
    } else if Find(data[pos..], needle, 0).Some? {
      var k := Find(data[pos..], needle, 0).value;
      AtFits(data[pos..], needle, k);
      AtWithin(data, needle, pos, |data|, k);
    }
  }

  lemma TrailedIsDone(ok: Check, data: Bytes, pos: nat)
    requires RefusesBlank(ok) && pos <= |data| && Trailed(ok, data[pos..])
    ensures Last(ok, data, pos) == Done(|data|)
  {
    hide Find;
    var rest := data[pos..];
    FindSame(data, BLANK, pos);
    if rest != CRLF {
      var end := Find(rest, BLANK, 0).value;
      assert data[pos..pos + end] == rest[..end];
      assert rest == data[pos..|data|];
      AtWithin(data, CRLF, pos, |data|, 0);
      if At(rest, CRLF, 0) {
        BlankStart(rest);
      }
    }
  }

  lemma BlankStart(rest: Bytes)
    requires At(rest, CRLF, 0) && Find(rest, BLANK, 0).Some?
    ensures
      var end := Find(rest, BLANK, 0).value;
      rest[..end] == [] || At(rest[..end], CRLF, 0)
  {
    var end := Find(rest, BLANK, 0).value;
    assert rest[0..2][1] == 10 && rest[end..end + 4][0] == 13;
    if end >= 2 {
      assert rest[..end][0..2] == rest[0..2];
    }
  }

  /** Conversely, what the decoder accepts is a body the scan sees end at its last byte. */
  lemma {:induction false} DecodedIsDone(ok: Check, data: Bytes, pos: nat)
    requires RefusesBlank(ok) && pos <= |data| <= USIZE_MAX && Decode(ok, data[pos..]).Some?
    ensures Scan(ok, data, pos) == Done(|data|)
    decreases |data| - pos
  {
    hide TurnAt, Decode, RefusesBlank;
    DecodedTurn(ok, data, pos);
    var t := TurnAt(ok, data, pos);
    if t.Chunk? {
      DecodedIsDone(ok, data, t.next);
    }
  }

  lemma DecodedTurn(ok: Check, data: Bytes, pos: nat)
    requires RefusesBlank(ok) && pos <= |data| <= USIZE_MAX && Decode(ok, data[pos..]).Some?
    ensures
      var t := TurnAt(ok, data, pos);
      t == Stop(Done(|data|)) || (t.Chunk? && Decode(ok, data[t.next..]).Some?)
  {
    hide Find, ChunkSize, At, Trailed, Last, RefusesBlank;
    var cut := data[pos..];
    FindSame(data, CRLF, pos);
    var eol := Find(data, CRLF, pos).value;
    AtFits(data, CRLF, eol);
    assert cut[..eol - pos] == data[pos..eol];
    var size, rest := ChunkSize(data[pos..eol]).value, cut[eol - pos + 2..];
    assert rest == data[eol + 2..];
    if size == 0 {
      TrailedIsDone(ok, data, eol + 2);
    } else {
      var next := eol + 2 + size + 2;
      assert data[eol + 2..] == data[eol + 2..|data|];
      AtWithin(data, CRLF, eol + 2, |data|, size);
      assert rest[size + 2..] == data[next..];
    }
  }

  /** Scan and decoder agree on which byte strings are bodies, and on their data. */
  lemma DecodesIff(ok: Check, body: Bytes)
    requires RefusesBlank(ok) && |body| <= USIZE_MAX
    ensures Decode(ok, body).Some? <==> Scan(ok, body, 0) == Done(|body|)
    ensures Decode(ok, body).Some? ==> Decode(ok, body).value == Payload(ok, body, 0)
  {
    hide RefusesBlank, Decode, Scan, Payload;
    assert body[0..] == body && body[0..|body|] == body;
    if Decode(ok, body).Some? {
      DecodedIsDone(ok, body, 0);
    }
    if Scan(ok, body, 0) == Done(|body|) {
      DoneDecodes(ok, body, 0);
    }
  }

  // ------------------------------------------------------------------ trailer fields

  const MAX_HEADER_BYTES := 64 * 1024
  const MAX_HEADER_COUNT := 200
  const CONTENT_LENGTH: Bytes := [99, 111, 110, 116, 101, 110, 116, 45, 108, 101, 110, 103, 116, 104]
  const TRANSFER_ENCODING: Bytes := [116, 114, 97, 110, 115, 102, 101, 114, 45, 101, 110, 99, 111, 100, 105, 110, 103]

  function Lines(t: Bytes): (r: seq<Bytes>)
    ensures |r| > 0
    decreases |t|
  {
    var i := Find(t, [10], 0);
    if i.None? then [t] else [t[..i.value]] + Lines(t[i.value + 1..])
  }

  function TrimCr(line: Bytes): Bytes {
    if |line| > 0 && line[|line| - 1] == 13 then line[..|line| - 1] else line
  }

  predicate TokenByte(b: byte) {
    48 <= b <= 57 || 65 <= b <= 90 || 97 <= b <= 122
    || b in [33, 35, 36, 37, 38, 39, 42, 43, 45, 46, 94, 95, 96, 124, 126]
  }

  /** A field line that may follow the last chunk; fields that frame a body may not. */
  predicate FieldOk(utf8: Check, line: Bytes) {
    var l := TrimCr(line);
    var colon := Find(l, [58], 0);
    && |line| <= MAX_HEADER_LINE && (|l| > 0 ==> l[0] != 32 && l[0] != 9)
    && colon.Some? && colon.value > 0
    && (forall i :: 0 <= i < colon.value ==> TokenByte(l[i]))
    && (forall i :: colon.value < i < |l| ==> l[i] == 9 || (l[i] >= 32 && l[i] != 127))
    && utf8(l[colon.value + 1..])
    && Lowered(l[..colon.value]) != CONTENT_LENGTH && Lowered(l[..colon.value]) != TRANSFER_ENCODING
  }

  predicate Paired(t: Bytes) {
    forall i :: 0 <= i < |t| ==>
      && (t[i] == 13 ==> i + 1 < |t| && t[i + 1] == 10)
      && (t[i] == 10 ==> i > 0 && t[i - 1] == 13)
  }

  predicate TrailersOk(utf8: Check, t: Bytes) {
    && |t| <= MAX_HEADER_BYTES && Paired(t) && |Lines(t)| <= MAX_HEADER_COUNT
    && forall i :: 0 <= i < |Lines(t)| ==> FieldOk(utf8, Lines(t)[i])
  }

  lemma EmptyLineRefused(utf8: Check, line: Bytes)
    requires line == [] || line == [13]
    ensures !FieldOk(utf8, line)
  {
    assert TrimCr(line) == [];
  }

  /** The program's trailer check meets the condition under which scan and decoder agree. */
  lemma TrailersRefuseBlank(utf8: Check)
    ensures RefusesBlank(t => TrailersOk(utf8, t))
  {
    hide FieldOk;
    forall t: Bytes | t == [] || At(t, CRLF, 0)
      ensures !TrailersOk(utf8, t)
    {
      if t != [] {
        assert t[0..2][0] == 13 && t[0..2][1] == 10;
        assert t[0..1] == [13] && t[1..2] == [10];
        assert !At(t, [10], 0) && At(t, [10], 1);
        assert Find(t, [10], 0) == Some(1);
        assert t[..1] == [13];
      }
      EmptyLineRefused(utf8, Lines(t)[0]);
    }
  }

  // ------------------------------------------------------------------ round trip

  function HexDigit(d: nat): byte
    requires d < 16
  {
    if d < 10 then 48 + d else 87 + d
  }

  function Hex(n: nat): Bytes {
    if n < 16 then [HexDigit(n)] else Hex(n / 16) + [HexDigit(n % 16)]
  }

  function Pow16(k: nat): nat {
    if k == 0 then 1 else 16 * Pow16(k - 1)
  }

  lemma {:induction false} HexParses(n: nat)
    ensures (forall i :: 0 <= i < |Hex(n)| ==> IsHex(Hex(n)[i])) && |Hex(n)| > 0
    ensures ParseHex(Hex(n)) == n
  {
    if n >= 16 {
      HexParses(n / 16);
      assert Hex(n)[..|Hex(n)| - 1] == Hex(n / 16);
    } else {
      assert Hex(n)[..0] == [];
    }
  }

  lemma {:induction false} HexShort(n: nat, k: nat)
    requires 0 < k && n < Pow16(k)
    ensures |Hex(n)| <= k
  {
    if n >= 16 {
      assert Pow16(1) == 16;
      HexShort(n / 16, k - 1);
    }
  }

  lemma Pow16Fits()
    ensures Pow16(16) == USIZE_MAX + 1
  {
    assert Pow16(4) == 0x1_0000;
    assert Pow16(7) == 0x1000_0000;
    assert Pow16(10) == 0x100_0000_0000;
    assert Pow16(13) == 0x10_0000_0000_0000;
  }

  lemma HexIsSize(n: nat)
    requires n <= USIZE_MAX
    ensures ChunkSize(Hex(n)) == Some(n)
  {
    hide Pow16, Hex, ParseHex;
    HexParses(n);
    Pow16Fits();
    HexShort(n, 16);
    var hex := Hex(n);
    forall i | 0 <= i
      ensures !At(hex, [59], i)
    {
      if i < |hex| {
        assert hex[i..i + 1][0] == hex[i];
      }
    }
    assert hex[..|hex|] == hex;
  }

  /** A body in chunked coding, without trailer fields. */
  function Encode(chunks: seq<Bytes>): Bytes {
    if chunks == [] then [48] + CRLF + CRLF
    else Hex(|chunks[0]|) + CRLF + chunks[0] + CRLF + Encode(chunks[1..])
  }

  lemma HexLine(front: Bytes, n: nat, back: Bytes)
    requires n <= USIZE_MAX
    ensures
      var data := front + Hex(n) + CRLF + back;
      && Find(data, CRLF, |front|) == Some(|front| + |Hex(n)|)
      && data[|front|..|front| + |Hex(n)|] == Hex(n) && ChunkSize(Hex(n)) == Some(n)
  {
    hide ChunkSize, Hex;
    HexIsSize(n);
    HexParses(n);
    var data, eol := front + Hex(n) + CRLF + back, |front| + |Hex(n)|;
    assert data[|front|..eol] == Hex(n);
    assert data[eol..eol + 2] == CRLF;
    forall j | |front| <= j < eol
      ensures !At(data, CRLF, j)
    {
      assert data[j] == Hex(n)[j - |front|];
      assert j + 2 <= |data| ==> data[j..j + 2][0] == data[j];
    }
    assert At(data, CRLF, eol);
  }

  lemma ChunkTurn(ok: Check, front: Bytes, chunk: Bytes, back: Bytes)
    requires chunk != [] && |front + Hex(|chunk|) + CRLF + chunk + CRLF| <= USIZE_MAX
    ensures
      var start := |front| + |Hex(|chunk|)| + 2;
      TurnAt(ok, front + Hex(|chunk|) + CRLF + chunk + CRLF + back, |front|) == Chunk(start, |chunk|, start + |chunk| + 2)
  {
    hide ChunkSize, Hex, Find, Last;
    var data := front + Hex(|chunk|) + CRLF + chunk + CRLF + back;
    assert data == front + Hex(|chunk|) + CRLF + (chunk + CRLF + back);
    HexLine(front, |chunk|, chunk + CRLF + back);
    var next := |front| + |Hex(|chunk|)| + 2 + |chunk| + 2;
    assert data[next - 2..next] == CRLF;
  }

  lemma LastTurn(ok: Check, front: Bytes, more: Bytes)
    ensures TurnAt(ok, front + ([48] + CRLF + CRLF) + more, |front|) == Stop(Done(|front| + 5))
  {
    hide ChunkSize, Find;
    assert Hex(0) == [48];
    var data := front + ([48] + CRLF + CRLF) + more;
    assert data == front + Hex(0) + CRLF + (CRLF + more);
    HexLine(front, 0, CRLF + more);
    assert data[|front| + 3..|front| + 5] == CRLF;
  }

  /** The scan of an encoded body ends where the encoding ends, whatever follows, having passed over its data. */
  lemma {:induction false} EncodedScans(ok: Check, front: Bytes, chunks: seq<Bytes>, more: Bytes)
    requires |front + Encode(chunks)| <= USIZE_MAX && forall i :: 0 <= i < |chunks| ==> chunks[i] != []
    ensures Scan(ok, front + Encode(chunks) + more, |front|) == Done(|front + Encode(chunks)|)
    ensures Payload(ok, front + Encode(chunks) + more, |front|) == Joined(chunks)
    decreases |chunks|
  {
    hide TurnAt, Hex;
    if chunks == [] {
      LastTurn(ok, front, more);
    } else {
      var c, head := chunks[0], front + Hex(|chunks[0]|) + CRLF + chunks[0] + CRLF;
      var data := front + Encode(chunks) + more;
      assert data == head + Encode(chunks[1..]) + more;
      assert data == head + (Encode(chunks[1..]) + more);
      EncodedScans(ok, head, chunks[1..], more);
      ChunkTurn(ok, front, c, Encode(chunks[1..]) + more);
      var start := |front| + |Hex(|c|)| + 2;
      assert head[start..start + |c|] == c;
      assert data[start..start + |c|] == c;
    }
  }

  /** Decoding undoes encoding. */
  lemma RoundTrip(ok: Check, chunks: seq<Bytes>)
    requires |Encode(chunks)| <= USIZE_MAX && forall i :: 0 <= i < |chunks| ==> chunks[i] != []
    ensures Decode(ok, Encode(chunks)) == Some(Joined(chunks))
  {
    hide Decode, Scan, Payload;
    var body := Encode(chunks);
    assert [] + body + [] == body;
    EncodedScans(ok, [], chunks, []);
    DoneDecodes(ok, body, 0);
    assert body[0..|body|] == body;
  }
}
