/** Chunked bodies by their grammar (section 7.1 of RFC 9112): which byte strings are bodies, and of what data. */
module ChunkLaws {
  import opened Basics
  import opened Chunked

  // ------------------------------------------------------------------ chunk sizes

  /** The value of a hexadecimal digit in either case. */
  function Digit(c: byte): Option<nat> {
    if 0x30 <= c <= 0x39 then Some(c - 0x30)
    else if 0x41 <= c <= 0x46 then Some(c - 0x41 + 10)
    else if 0x61 <= c <= 0x66 then Some(c - 0x61 + 10)
    else None
  }

  predicate Digits(s: Bytes) {
    forall i :: 0 <= i < |s| ==> Digit(s[i]).Some?
  }

  /** The number the digits write, the most significant first. */
  function Number(s: Bytes): nat
    requires Digits(s)
  {
    if s == [] then 0 else Digit(s[0]).value * Pow16(|s| - 1) + Number(s[1..])
  }

  /** A size line: digits, and an extension of visible bytes after a semicolon. */
  predicate Writes(line: Bytes, k: nat, n: nat) {
    && 1 <= k <= |line| <= 8192 && Digits(line[..k]) && Number(line[..k]) == n < 0x1_0000_0000_0000_0000
    && (k < |line| ==> line[k] == 0x3B) && forall i :: k <= i < |line| ==> line[i] > 0x20 && line[i] != 0x7F
  }

  ghost predicate SizeLine(line: Bytes, n: nat) {
    exists k: nat :: Writes(line, k, n)
  }

  lemma DigitIs(c: byte)
    ensures Digit(c).Some? <==> IsHex(c)
    ensures IsHex(c) ==> Digit(c).value == HexValue(c)
  {
  }

  lemma {:induction false} NumberSnoc(s: Bytes, c: byte)
    requires Digits(s) && Digit(c).Some?
    ensures Digits(s + [c]) && Number(s + [c]) == Number(s) * 16 + Digit(c).value
  {
    if s == [] {
      assert s + [c] == [c] && [c][1..] == [];
    } else {
      NumberSnoc(s[1..], c);
      assert (s + [c])[1..] == s[1..] + [c];
      assert Pow16(|s|) == 16 * Pow16(|s| - 1);
      var d, p, r := Digit(s[0]).value, Pow16(|s| - 1), Number(s[1..]);
      assert d * (16 * p) + (r * 16 + Digit(c).value) == (d * p + r) * 16 + Digit(c).value;
    }
  }

  lemma {:induction false} NumberIs(s: Bytes)
    requires Digits(s)
    ensures (forall i :: 0 <= i < |s| ==> IsHex(s[i])) && ParseHex(s) == Number(s)
  {
    forall i | 0 <= i < |s|
      ensures IsHex(s[i])
    {
      DigitIs(s[i]);
    }
    if s != [] {
      var front, c := s[..|s| - 1], s[|s| - 1];
      NumberIs(front);
      NumberSnoc(front, c);
      assert s == front + [c];
      DigitIs(c);
    }
  }

  /** The size read from a line is the number it writes, and lines that are not size lines are refused. */
  lemma SizeLaw(line: Bytes, n: nat)
    ensures ChunkSize(line) == Some(n) <==> SizeLine(line, n)
  {
    hide Find, Number, ParseHex;
    if ChunkSize(line) == Some(n) {
      var k := if Find(line, [59], 0).Some? then Find(line, [59], 0).value else |line|;
      forall i | 0 <= i < k
        ensures Digit(line[..k][i]).Some?
      {
        DigitIs(line[i]);
      }
      NumberIs(line[..k]);
      if k < |line| {
        assert line[k..k + 1][0] == 59;
      }
      assert Writes(line, k, n);
    }
    if SizeLine(line, n) {
      var k: nat :| Writes(line, k, n);
      SizeOf(line, k, n);
    }
  }

  lemma SizeOf(line: Bytes, k: nat, n: nat)
    requires Writes(line, k, n)
    ensures ChunkSize(line) == Some(n)
  {
    hide Find, Number, ParseHex;
    NumberIs(line[..k]);
    forall i | 0 <= i < k
      ensures IsHex(line[i]) && !At(line, [59], i)
    {
      assert line[..k][i] == line[i];
      DigitIs(line[i]);
      assert line[i..i + 1][0] == line[i];
    }
    if k < |line| {
      assert line[k..k + 1] == [59];
      assert At(line, [59], k);
    } else {
      assert forall i :: k <= i ==> !At(line, [59], i);
    }
  }

  /** No byte of a size line ends a line. */
  lemma NoBreak(line: Bytes, n: nat)
    requires SizeLine(line, n)
    ensures forall i :: 0 <= i < |line| ==> line[i] != 13
  {
    var k: nat :| Writes(line, k, n);
    forall i | 0 <= i < |line|
      ensures line[i] != 13
    {
      if i < k {
        assert line[..k][i] == line[i];
      }
    }
  }

  lemma LineEnds(line: Bytes, n: nat, rest: Bytes)
    requires SizeLine(line, n)
    ensures Find(line + [13, 10] + rest, CRLF, 0) == Some(|line|)
  {
    hide Find;
    NoBreak(line, n);
    var b := line + [13, 10] + rest;
    forall j | 0 <= j < |line|
      ensures !At(b, CRLF, j)
    {
      assert b[j] == line[j] != 13;
      assert j + 2 <= |b| ==> b[j..j + 2][0] == b[j] && CRLF[0] == 13;
    }
    assert b[|line|..|line| + 2] == CRLF;
    assert At(b, CRLF, |line|);
  }

  // ------------------------------------------------------------------ bodies

  /** An empty line, or trailer fields that are in order, up to the first empty line, and nothing more. */
  ghost predicate TrailerPart(ok: Check, rest: Bytes) {
    || rest == [13, 10]
    || exists t :: rest == t + [13, 10, 13, 10] && ok(t) && forall i :: 0 <= i < |t| ==> !At(rest, [13, 10, 13, 10], i)
  }

  /** One chunk in front: its size line, its data, and a line end. */
  ghost predicate ChunkFirst(b: Bytes, line: Bytes, data: Bytes, rest: Bytes) {
    data != [] && SizeLine(line, |data|) && b == line + [13, 10] + data + [13, 10] + rest
  }

  /** `b` is a body of the chunks given. */
  ghost predicate Body(ok: Check, b: Bytes, chunks: seq<Bytes>)
    decreases |chunks|
  {
    if chunks == [] then exists line, rest :: SizeLine(line, 0) && b == line + [13, 10] + rest && TrailerPart(ok, rest)
    else exists line, rest :: ChunkFirst(b, line, chunks[0], rest) && Body(ok, rest, chunks[1..])
  }

  lemma TrailerIs(ok: Check, rest: Bytes)
    ensures TrailerPart(ok, rest) <==> Trailed(ok, rest)
  {
    hide Find;
    if Trailed(ok, rest) && rest != CRLF {
      var end := Find(rest, BLANK, 0).value;
      var t := rest[..end];
      assert rest[end..end + 4] == BLANK;
      assert rest == t + BLANK;
    }
    if TrailerPart(ok, rest) && rest != CRLF {
      var t :| rest == t + BLANK && ok(t) && forall i :: 0 <= i < |t| ==> !At(rest, BLANK, i);
      assert rest[|t|..|t| + 4] == BLANK;
      assert At(rest, BLANK, |t|);
      assert rest[..|t|] == t;
    }
  }

  /** A body made of chunks decodes to them. */
  lemma {:induction false} BodyDecodes(ok: Check, b: Bytes, chunks: seq<Bytes>)
    requires Body(ok, b, chunks) && |b| <= USIZE_MAX
    ensures Decode(ok, b) == Some(Joined(chunks))
    decreases |chunks|
  {
    hide Decode, SizeLine, TrailerPart, ChunkFirst;
    if chunks == [] {
      var line, rest :| SizeLine(line, 0) && b == line + [13, 10] + rest && TrailerPart(ok, rest);
      LastDecodes(ok, b, line, rest);
    } else {
      var line, rest :| ChunkFirst(b, line, chunks[0], rest) && Body(ok, rest, chunks[1..]);
      ShorterRest(b, line, chunks[0], rest);
      BodyDecodes(ok, rest, chunks[1..]);
      FirstDecodes(ok, b, line, chunks[0], rest);
    }
  }

  lemma ShorterRest(b: Bytes, line: Bytes, data: Bytes, rest: Bytes)
    requires ChunkFirst(b, line, data, rest)
    ensures |rest| <= |b|
  {
  }

  lemma LastDecodes(ok: Check, b: Bytes, line: Bytes, rest: Bytes)
    requires SizeLine(line, 0) && b == line + [13, 10] + rest && TrailerPart(ok, rest)
    ensures Decode(ok, b) == Some([])
  {
    hide Find, ChunkSize, SizeLine, TrailerPart, Trailed;
    LineEnds(line, 0, rest);
    SizeLaw(line, 0);
    TrailerIs(ok, rest);
    assert b[..|line|] == line && b[|line| + 2..] == rest;
  }

  lemma FirstDecodes(ok: Check, b: Bytes, line: Bytes, data: Bytes, rest: Bytes)
    requires ChunkFirst(b, line, data, rest) && |b| <= USIZE_MAX
    ensures Decode(ok, b) == After(data, Decode(ok, rest))
  {
    hide Find, ChunkSize, SizeLine, Decode;
    SizeLaw(line, |data|);
    var after, eol := data + [13, 10] + rest, |line|;
    assert b == line + [13, 10] + after;
    LineEnds(line, |data|, after);
    assert b[..eol] == line && b[eol + 2..] == after;
    ChunkParts(b, line, data, rest);
    DecodeChunk(ok, b, eol, |data|);
  }

  lemma ChunkParts(b: Bytes, line: Bytes, data: Bytes, rest: Bytes)
    requires b == line + [13, 10] + data + [13, 10] + rest
    ensures
      var start, end := |line| + 2, |line| + 2 + |data|;
      && end + 2 <= |b| && At(b, CRLF, end) && b[start..end] == data && b[end + 2..] == rest
  {
    var start, end := |line| + 2, |line| + 2 + |data|;
    assert b[end..end + 2] == CRLF;
  }

  /** What decodes is a body of some chunks. */
  lemma {:induction false} DecodedIsBody(ok: Check, b: Bytes) returns (chunks: seq<Bytes>)
    requires Decode(ok, b).Some?
    ensures Body(ok, b, chunks) && Joined(chunks) == Decode(ok, b).value
    decreases |b|
  {
    hide Find, ChunkSize, SizeLine, TrailerPart, Trailed, At;
    var eol := Find(b, CRLF, 0).value;
    AtFits(b, CRLF, eol);
    var line, rest := b[..eol], b[eol + 2..];
    var n := ChunkSize(line).value;
    SizeLaw(line, n);
    CutAt(b, eol);
    if n == 0 {
      chunks := [];
      TrailerIs(ok, rest);
    } else {
      var data, more := rest[..n], rest[n + 2..];
      CutAt(rest, n);
      Regroup(b, line, rest, data, more);
      var others := DecodedIsBody(ok, more);
      chunks := [data] + others;
      assert chunks[1..] == others && chunks[0] == data;
      assert ChunkFirst(b, line, data, more);
    }
  }

  lemma CutAt(b: Bytes, i: nat)
    requires At(b, CRLF, i)
    ensures i + 2 <= |b| && b == b[..i] + [13, 10] + b[i + 2..]
  {
    assert b[i..i + 2] == CRLF;
  }

  lemma Regroup(b: Bytes, line: Bytes, rest: Bytes, data: Bytes, more: Bytes)
    requires b == line + [13, 10] + rest && rest == data + [13, 10] + more
    ensures b == line + [13, 10] + data + [13, 10] + more
  {
  }

  /** The decoder accepts exactly the bodies of the grammar, and yields their data. */
  lemma GrammarLaw(ok: Check, b: Bytes, data: Bytes)
    requires |b| <= USIZE_MAX
    ensures Decode(ok, b) == Some(data) <==> exists chunks :: Body(ok, b, chunks) && Joined(chunks) == data
  {
    hide Decode, Body;
    if Decode(ok, b) == Some(data) {
      var chunks := DecodedIsBody(ok, b);
    }
    if chunks :| Body(ok, b, chunks) && Joined(chunks) == data {
      BodyDecodes(ok, b, chunks);
    }
  }

  // ------------------------------------------------------------------ the scan, turn by turn

  /** A whole line from `pos`, without its end. */
  ghost predicate LineAt(data: Bytes, pos: nat, eol: nat) {
    pos <= eol && At(data, [13, 10], eol) && forall j :: pos <= j < eol ==> !At(data, [13, 10], j)
  }

  /** A chunk lies whole at `pos`. */
  ghost predicate WholeChunk(data: Bytes, pos: nat, eol: nat, size: nat) {
    && LineAt(data, pos, eol) && eol <= |data| && SizeLine(data[pos..eol], size) && size > 0
    && eol + 2 + size + 2 <= USIZE_MAX && At(data, [13, 10], eol + 2 + size)
  }

  /** Something at `pos` is wrong, whatever follows. */
  ghost predicate Fault(ok: Check, data: Bytes, pos: nat, eol: nat) {
    && LineAt(data, pos, eol) && eol <= |data|
    && ((forall n: nat :: !SizeLine(data[pos..eol], n))
        || exists n: nat :: SizeLine(data[pos..eol], n) && (if n == 0 then BadTrailers(ok, data, eol + 2) else BadEnd(data, eol + 2, n)))
  }

  /** The data of a chunk is there and not followed by a line end, or would end past what can be addressed. */
  predicate BadEnd(data: Bytes, start: nat, n: nat) {
    start + n + 2 > USIZE_MAX || (start + n + 2 <= |data| && !At(data, [13, 10], start + n))
  }

  ghost predicate BadTrailers(ok: Check, data: Bytes, start: nat) {
    start + 2 <= |data| && !At(data, [13, 10], start) && exists end: nat :: FirstBlank(data, start, end) && !ok(data[start..end])
  }

  ghost predicate FirstBlank(data: Bytes, start: nat, end: nat) {
    start <= end && At(data, [13, 10, 13, 10], end) && end <= |data| && forall j :: start <= j < end ==> !At(data, [13, 10, 13, 10], j)
  }

  lemma LineIs(data: Bytes, pos: nat, eol: nat)
    ensures LineAt(data, pos, eol) <==> Find(data, CRLF, pos) == Some(eol)
    ensures LineAt(data, pos, eol) ==> eol + 2 <= |data|
  {
    hide Find;
  }

  lemma BlankIs(data: Bytes, pos: nat, end: nat)
    ensures FirstBlank(data, pos, end) <==> Find(data, BLANK, pos) == Some(end)
  {
    hide Find;
  }

  /** The scan passes over exactly the whole chunks. */
  lemma ChunkLaw(ok: Check, data: Bytes, pos: nat, eol: nat, size: nat)
    ensures TurnAt(ok, data, pos) == Chunk(eol + 2, size, eol + 2 + size + 2) <==> WholeChunk(data, pos, eol, size)
  {
    hide Find, ChunkSize, SizeLine, LineAt, Last, At;
    LineIs(data, pos, eol);
    if LineAt(data, pos, eol) {
      LineStarts(data, pos, eol);
      SizeLaw(data[pos..eol], size);
    }
    if WholeChunk(data, pos, eol, size) {
      AtFits(data, CRLF, eol + 2 + size);
    }
  }

  lemma LineStarts(data: Bytes, pos: nat, eol: nat)
    requires LineAt(data, pos, eol)
    ensures pos <= eol
  {
  }

  /** The scan reports an error exactly at a fault. */
  lemma FaultLaw(ok: Check, data: Bytes, pos: nat)
    ensures TurnAt(ok, data, pos) == Stop(Broken) <==> exists eol: nat :: Fault(ok, data, pos, eol)
  {
    hide Find, ChunkSize, SizeLine, LineAt, At, FirstBlank;
    var eol := Find(data, CRLF, pos);
    forall e: nat
      ensures LineAt(data, pos, e) <==> eol == Some(e)
      ensures LineAt(data, pos, e) ==> pos <= e && e + 2 <= |data|
    {
      LineIs(data, pos, e);
      if LineAt(data, pos, e) {
        LineStarts(data, pos, e);
      }
    }
    if eol.Some? {
      var line := data[pos..eol.value];
      forall n: nat
        ensures SizeLine(line, n) <==> ChunkSize(line) == Some(n)
      {
        SizeLaw(line, n);
      }
      var start := eol.value + 2;
      forall end: nat
        ensures FirstBlank(data, start, end) <==> Find(data, BLANK, start) == Some(end)
      {
        BlankIs(data, start, end);
      }
      if TurnAt(ok, data, pos) == Stop(Broken) {
        assert Fault(ok, data, pos, eol.value);
      }
    }
  }
}
