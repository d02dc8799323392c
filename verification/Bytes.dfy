/** Bytes, fixed-width integers in both byte orders, and slices of encoded tables. */
module Bytes {

  type byte = x: int | 0 <= x < 256

  datatype Endian = Little | Big

  function Zeros(n: nat): (r: seq<byte>)
    ensures |r| == n
    ensures forall i :: 0 <= i < n ==> r[i] == 0
  {
    seq(n, i => 0)
  }

  function Pow256(width: nat): (r: nat)
    ensures r > 0
  {
    if width == 0 then 1 else 256 * Pow256(width - 1)
  }

  predicate Fits(width: nat, n: int) {
    0 <= n < Pow256(width)
  }

  /** The `width` bytes of n, least significant first. */
  function LittleEndian(width: nat, n: nat): (r: seq<byte>)
    ensures |r| == width
  {
    if width == 0 then [] else [n % 256] + LittleEndian(width - 1, n / 256)
  }

  function DecodeLittle(b: seq<byte>): nat {
    if b == [] then 0 else b[0] + 256 * DecodeLittle(b[1..])
  }

  function DecodeBig(b: seq<byte>): nat {
    if b == [] then 0 else b[|b| - 1] + 256 * DecodeBig(b[..|b| - 1])
  }

  function Decode(order: Endian, b: seq<byte>): nat {
    if order == Little then DecodeLittle(b) else DecodeBig(b)
  }

  lemma {:induction false} DecodeEncoded(width: nat, n: nat)
    requires Fits(width, n)
    ensures DecodeLittle(LittleEndian(width, n)) == n
  {
    if width > 0 {
      assert n / 256 < Pow256(width - 1);
      DecodeEncoded(width - 1, n / 256);
      assert LittleEndian(width, n)[1..] == LittleEndian(width - 1, n / 256);
    }
  }

  /** The last bytes of a little-endian integer weigh most. */
  lemma {:induction false} LittleWeighs(a: seq<byte>, b: seq<byte>)
    ensures DecodeLittle(a + b) == DecodeLittle(a) + Pow256(|a|) * DecodeLittle(b)
  {
    if a == [] {
      assert a + b == b;
    } else {
      LittleWeighs(a[1..], b);
      assert (a + b)[1..] == a[1..] + b;
      var rest, high := DecodeLittle(a[1..]), DecodeLittle(b);
      assert Pow256(|a|) * high == 256 * (Pow256(|a| - 1) * high);
    }
  }

  /** The first bytes of a big-endian integer weigh most. */
  lemma {:induction false} BigWeighs(a: seq<byte>, b: seq<byte>)
    ensures DecodeBig(a + b) == DecodeBig(a) * Pow256(|b|) + DecodeBig(b)
  {
    if b == [] {
      assert a + b == a;
    } else {
      var n := |b| - 1;
      BigWeighs(a, b[..n]);
      assert (a + b)[..|a| + n] == a + b[..n];
      assert DecodeBig(a) * Pow256(|b|) == 256 * (DecodeBig(a) * Pow256(n));
    }
  }

  /** Four bytes of a file as an integer, in either order. */
  lemma {:induction false} FourBytes(b: seq<byte>)
    requires |b| == 4
    ensures var w, x, y, z := b[0] as int, b[1] as int, b[2] as int, b[3] as int;
            && Decode(Little, b) == w + 256 * x + 65536 * y + 16777216 * z
            && Decode(Big, b) == 16777216 * w + 65536 * x + 256 * y + z
  {
    assert b[1..][1..] == b[2..] && b[2..][1..] == b[3..] && b[3..][1..] == [];
    assert b[..3][..2] == b[..2] && b[..2][..1] == b[..1] && b[..1][..0] == [];
    assert DecodeLittle(b[3..]) == b[3] && DecodeLittle(b[2..]) == b[2] as int + 256 * (b[3] as int);
    assert DecodeLittle(b[1..]) == b[1] as int + 256 * DecodeLittle(b[2..]);
    assert DecodeBig(b[..1]) == b[0] && DecodeBig(b[..2]) == 256 * (b[0] as int) + b[1] as int;
    assert DecodeBig(b[..3]) == 256 * DecodeBig(b[..2]) + b[2] as int;
    assert DecodeLittle(b) == b[0] as int + 256 * DecodeLittle(b[1..]) && DecodeBig(b) == 256 * DecodeBig(b[..3]) + b[3] as int;
  }

  /** A run of integers, each `width` bytes wide, least significant byte first. */
  function Table(width: nat, values: seq<nat>): (r: seq<byte>)
    ensures |r| == width * |values|
  {
    if values == [] then []
    else LittleEndian(width, values[0]) + Table(width, values[1..])
  }

  lemma {:induction false} TableAt(width: nat, values: seq<nat>, k: nat)
    requires k < |values|
    ensures 0 <= width * k <= width * (k + 1) <= |Table(width, values)|
    ensures Table(width, values)[width * k..width * (k + 1)] == LittleEndian(width, values[k])
  {
    var head, rest := LittleEndian(width, values[0]), Table(width, values[1..]);
    if k > 0 {
      TableAt(width, values[1..], k - 1);
      assert width * (k - 1) == width * k - width;
      assert (head + rest)[width * k..width * (k + 1)] == rest[width * (k - 1)..width * k];
    }
    assert width * (k + 1) == width * k + width;
    assert width * k >= 0;
  }

  lemma {:induction false} TableAppend(width: nat, a: seq<nat>, b: seq<nat>)
    ensures Table(width, a + b) == Table(width, a) + Table(width, b)
  {
    if a == [] {
      assert a + b == b;
    } else {
      TableAppend(width, a[1..], b);
      calc {
        Table(width, a + b);
        { assert (a + b)[1..] == a[1..] + b; }
        LittleEndian(width, a[0]) + Table(width, a[1..] + b);
        LittleEndian(width, a[0]) + (Table(width, a[1..]) + Table(width, b));
        Table(width, a) + Table(width, b);
      }
    }
  }

  lemma {:induction false} SliceOfSlice<T>(s: seq<T>, from: nat, to: nat, lo: nat, hi: nat)
    requires from <= to <= |s| && lo <= hi <= to - from
    ensures s[from..to][lo..hi] == s[from + lo..from + hi]
  {
    var mid := s[from..to];
    forall i | 0 <= i < hi - lo
      ensures mid[lo..hi][i] == s[from + lo..from + hi][i]
    {
      assert mid[lo + i] == s[from + (lo + i)];
    }
  }

  /** Reading entry k, at offset `lo`, of a table that lies at offset `at` of a file gives back the value. */
  lemma {:induction false} ReadTable(file: seq<byte>, at: nat, width: nat, values: seq<nat>, k: nat, lo: nat)
    requires at + width * |values| <= |file|
    requires file[at..at + width * |values|] == Table(width, values)
    requires k < |values| && Fits(width, values[k]) && lo == at + width * k
    ensures lo + width <= |file|
    ensures DecodeLittle(file[lo..lo + width]) == values[k]
  {
    TableAt(width, values, k);
    DecodeEncoded(width, values[k]);
    assert width * (k + 1) == width * k + width;
    SliceOfSlice(file, at, at + width * |values|, width * k, width * (k + 1));
  }
}
