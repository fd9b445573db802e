/** Value types shared by the models: bytes, fixed-width words, and an optional value. */
module Basics {

  datatype Option<+T> = None | Some(value: T)

  type byte = x: int | 0 <= x < 0x100
  type u16 = x: int | 0 <= x < 0x1_0000
  type u32 = x: int | 0 <= x < 0x1_0000_0000
  type u64 = x: int | 0 <= x < 0x1_0000_0000_0000_0000
  type u128 = x: int | 0 <= x < 0x1_0000_0000_0000_0000_0000_0000_0000_0000

  type Bytes = seq<byte>

  const U16_MAX: u16 := 0xFFFF
  const U32_MAX: u32 := 0xFFFF_FFFF
  const U64_MAX: u64 := 0xFFFF_FFFF_FFFF_FFFF

  function Max(a: int, b: int): int {
    if a >= b then a else b
  }

  function Min(a: int, b: int): (r: int)
    ensures r <= a && r <= b && (r == a || r == b)
  {
    if a <= b then a else b
  }

  /** Rust's `u64::saturating_add`. */
  function SaturatingAdd64(a: u64, b: u64): (r: u64)
    ensures a <= r && (r == a + b || r == U64_MAX)
  {
    if a + b <= U64_MAX then a + b else U64_MAX
  }

  /** Big-endian 16-bit word, `u16::to_be_bytes`. */
  function ToBe16(x: u16): (r: Bytes)
    ensures |r| == 2
  {
    [x / 0x100, x % 0x100]
  }

  function FromBe16(a: byte, b: byte): (r: u16)
    ensures ToBe16(r) == [a, b]
  {
    a * 0x100 + b
  }

  function ToBe32(x: u32): (r: Bytes)
    ensures |r| == 4
  {
    ToBe16(x / 0x1_0000) + ToBe16(x % 0x1_0000)
  }

  function FromBe32(b: Bytes): u32
    requires |b| == 4
  {
    FromBe16(b[0], b[1]) * 0x1_0000 + FromBe16(b[2], b[3])
  }

  lemma Be16RoundTrip(x: u16)
    ensures FromBe16(ToBe16(x)[0], ToBe16(x)[1]) == x
  {
  }

  lemma Be32RoundTrip(x: u32)
    ensures FromBe32(ToBe32(x)) == x
  {
    Be16RoundTrip(x / 0x1_0000);
    Be16RoundTrip(x % 0x1_0000);
  }

  function Zeros(n: nat): (r: Bytes)
    ensures |r| == n && forall i :: 0 <= i < n ==> r[i] == 0
  {
    seq(n, _ => 0)
  }

  /** ASCII case folding. */
  function Lower(b: byte): byte {
    if 65 <= b <= 90 then b + 32 else b
  }

  function Lowered(s: Bytes): (r: Bytes)
    ensures |r| == |s|
  {
    seq(|s|, i requires 0 <= i < |s| => Lower(s[i]))
  }

  // ------------------------------------------------------------------ pieces

  /** Pieces put together in order. */
  function Joined(pieces: seq<Bytes>): Bytes {
    if pieces == [] then [] else pieces[0] + Joined(pieces[1..])
  }

  lemma {:induction false} JoinedAppend(a: seq<Bytes>, b: seq<Bytes>)
    ensures Joined(a + b) == Joined(a) + Joined(b)
  {
    if a == [] {
      assert a + b == b;
    } else {
      JoinedAppend(a[1..], b);
      assert (a + b)[1..] == a[1..] + b && (a + b)[0] == a[0];
      var x, y, z := a[0], Joined(a[1..]), Joined(b);
      assert Joined(a) == x + y && Joined(a + b) == x + (y + z);
      assert (x + y) + z == x + (y + z);
    }
  }

  lemma JoinedSnoc(a: seq<Bytes>, x: Bytes)
    ensures Joined(a + [x]) == Joined(a) + x
  {
    JoinedAppend(a, [x]);
    assert Joined([x]) == x + Joined([x][1..]);
    assert x + [] == x;
  }

  /** Elements of a sequence are pairwise different. */
  ghost predicate Distinct<T>(s: seq<T>) {
    forall i, j :: 0 <= i < j < |s| ==> s[i] != s[j]
  }

  // ------------------------------------------------------------------ counting

  lemma {:induction false} SubsetSize<T>(a: set<T>, b: set<T>)
    requires a <= b
    ensures |a| <= |b|
  {
    if x :| x in a {
      SubsetSize(a - {x}, b - {x});
    }
  }

  ghost function Image<A, B>(xs: set<A>, f: A -> B): set<B> {
    set x | x in xs :: f(x)
  }

  lemma {:induction false} ImageSize<A, B>(xs: set<A>, f: A -> B)
    requires forall x, y :: x in xs && y in xs && f(x) == f(y) ==> x == y
    ensures |Image(xs, f)| == |xs|
  {
    if x :| x in xs {
      ImageSize(xs - {x}, f);
      assert Image(xs, f) == Image(xs - {x}, f) + {f(x)};
    }
  }

  function Count(b: bool): nat {
    if b then 1 else 0
  }

  lemma RemovedSize<K, V>(m: map<K, V>, k: K)
    ensures |m - {k}| == |m| - Count(k in m)
  {
    assert (m - {k}).Keys == m.Keys - {k};
    assert |m| == |m.Keys| && |m - {k}| == |(m - {k}).Keys|;
  }

  lemma FilterSize<K, V>(m: map<K, V>, m': map<K, V>)
    requires m'.Keys <= m.Keys
    ensures |m'| <= |m|
  {
    SubsetSize(m'.Keys, m.Keys);
    assert |m'| == |m'.Keys| && |m| == |m.Keys|;
  }
}
