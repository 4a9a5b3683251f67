/** Decoding of the raw kernel answers (internal/platform/sysctl_darwin.go).
    The bytes are arbitrary inputs; floating point is modelled by exact reals. */
module Sysctl {
  import opened Lists

  type Byte = b: int | 0 <= b < 256

  const TWO_32 := 0x1_0000_0000
  const TWO_63 := 0x8000_0000_0000_0000
  const TWO_64 := 0x1_0000_0000_0000_0000
  const DEFAULT_FSCALE := 2048

  datatype LoadAverage = LoadAverage(load1: real, load5: real, load15: real)

  datatype MemoryStats = MemoryStats(total: nat, pageSize: nat, freePages: nat, freeBytes: nat)

  function Pow256(n: nat): (p: nat)
    ensures p > 0
  {
    if n == 0 then 1 else 256 * Pow256(n - 1)
  }

  /** The unsigned number whose little-endian bytes are `b`. */
  function LittleEndian(b: seq<Byte>): nat {
    if b == [] then 0 else b[0] + 256 * LittleEndian(b[1..])
  }

  function Encode(n: nat, width: nat): seq<Byte> {
    if width == 0 then [] else [n % 256] + Encode(n / 256, width - 1)
  }

  lemma {:induction false} LittleEndianBound(b: seq<Byte>)
    ensures LittleEndian(b) < Pow256(|b|)
  {
    if b != [] {
      LittleEndianBound(b[1..]);
    }
  }

  lemma {:induction false} LittleEndianRoundTrip(n: nat, width: nat)
    requires n < Pow256(width)
    ensures |Encode(n, width)| == width && LittleEndian(Encode(n, width)) == n
  {
    if width > 0 {
      LittleEndianRoundTrip(n / 256, width - 1);
      assert Encode(n, width)[1..] == Encode(n / 256, width - 1);
    }
  }

  lemma WordBounds()
    ensures Pow256(4) == TWO_32 && Pow256(8) == TWO_64
  {
    assert Pow256(2) == 65536;
    assert Pow256(4) == 256 * (256 * Pow256(2));
    assert Pow256(6) == 256 * (256 * Pow256(4));
    assert Pow256(8) == 256 * (256 * Pow256(6));
  }

  function Uint32(b: seq<Byte>): (n: nat)
    requires |b| == 4
    ensures n < TWO_32
  {
    LittleEndianBound(b);
    WordBounds();
    LittleEndian(b)
  }

  /** The unsigned 64-bit word reinterpreted as two's complement. */
  function Int64(b: seq<Byte>): (n: int)
    requires |b| == 8
    ensures -TWO_63 <= n < TWO_63
  {
    LittleEndianBound(b);
    WordBounds();
    var u := LittleEndian(b);
    if u >= TWO_63 then u - TWO_64 else u
  }

  /** The scale factor: at offset 16 when the struct is padded, at 12 otherwise, 2048 when it reads zero. */
  function Fscale(data: seq<Byte>): (scale: int)
    requires |data| >= 20
    ensures scale != 0
  {
    var scale := if |data| >= 24 then Int64(data[16..24]) else Int64(data[12..20]);
    if scale == 0 then DEFAULT_FSCALE else scale
  }

  function GetLoadAverage(raw: Result<seq<Byte>>): Result<LoadAverage> {
    match raw
    case Err(e) => Err("sysctl vm.loadavg: " + e)
    case Ok(data) =>
      if |data| < 20 then Err("unexpected vm.loadavg size") else
        var scale := Fscale(data) as real;
        Ok(LoadAverage(Uint32(data[0..4]) as real / scale,
                       Uint32(data[4..8]) as real / scale,
                       Uint32(data[8..12]) as real / scale))
  }

  function GetVMStat(raw: Result<seq<Byte>>): Result<nat> {
    match raw
    case Err(e) => Err(e)
    case Ok(data) => if |data| < 4 then Err("unexpected sysctl result length") else Ok(Uint32(data[0..4]))
  }

  /** `total` and `pageSize` are the answers for hw.memsize and vm.pagesize; 64-bit products wrap. */
  function GetMemoryStats(total: Result<nat>, pageSize: Result<nat>, freeCount: Result<seq<Byte>>): Result<MemoryStats> {
    match total
    case Err(e) => Err("sysctl hw.memsize: " + e)
    case Ok(bytes) =>
      match pageSize
      case Err(e) => Err("sysctl vm.pagesize: " + e)
      case Ok(size) =>
        var free := match GetVMStat(freeCount) case Ok(n) => n case Err(_) => 0;
        Ok(MemoryStats(bytes, size, free, (free * size) % TWO_64))
  }

  /** Decoding fails exactly when the kernel gave no answer or a load average too short to hold the scale;
      an unreadable page count is not a failure. */
  lemma DecodingFailsExactly(raw: Result<seq<Byte>>, total: Result<nat>, size: Result<nat>, free: Result<seq<Byte>>)
    ensures GetLoadAverage(raw).Err? <==> raw.Err? || |raw.value| < 20
    ensures GetMemoryStats(total, size, free).Err? <==> total.Err? || size.Err?
  {
    if total.Ok? && size.Ok? {
      var pages := GetVMStat(free);
    }
  }

  lemma QuotientBound(n: nat, scale: int)
    requires n < TWO_32 && scale != 0
    ensures -(TWO_32 as real) < n as real / scale as real < TWO_32 as real
    ensures scale > 0 ==> n as real / scale as real >= 0.0
  {
    var q := n as real / scale as real;
    assert q * scale as real == n as real;
    if scale > 0 {
      assert scale as real >= 1.0;
      if q >= TWO_32 as real {
        ProductAtLeast(q, scale as real);
        assert false;
      }
      if q < 0.0 {
        ProductNegative(q, scale as real);
        assert false;
      }
    } else {
      assert -(scale as real) >= 1.0;
      if q <= -(TWO_32 as real) {
        ProductAtLeast(-q, -(scale as real));
        assert false;
      }
      if q > 0.0 {
        ProductNegative(-q, -(scale as real));
        assert false;
      }
    }
  }

  lemma ProductAtLeast(x: real, y: real)
    requires x >= TWO_32 as real && y >= 1.0
    ensures x * y >= TWO_32 as real
  {
    assert x * y - x == x * (y - 1.0);
    assert x * (y - 1.0) >= 0.0;
  }

  lemma ProductNegative(x: real, y: real)
    requires x < 0.0 && y >= 1.0
    ensures x * y < 0.0
  {
  }

  predicate FitsInt64(x: real) {
    -(TWO_63 as real) <= x < TWO_63 as real
  }

  /** Whatever bytes the kernel returns, a decoded load times 100 fits the signed 64-bit number given to Cedar,
      and only a negative scale can make it negative. */
  lemma DecodedLoadsFitInt64(data: seq<Byte>)
    requires |data| >= 20
    ensures GetLoadAverage(Ok(data)).Ok?
    ensures var load := GetLoadAverage(Ok(data)).value;
      && FitsInt64(load.load1 * 100.0) && FitsInt64(load.load5 * 100.0) && FitsInt64(load.load15 * 100.0)
      && (Fscale(data) > 0 ==> load.load1 >= 0.0 && load.load5 >= 0.0 && load.load15 >= 0.0)
  {
    var scale := Fscale(data);
    QuotientBound(Uint32(data[0..4]), scale);
    QuotientBound(Uint32(data[4..8]), scale);
    QuotientBound(Uint32(data[8..12]), scale);
  }

  lemma Uint32RoundTrip(n: nat)
    requires n < TWO_32
    ensures |Encode(n, 4)| == 4 && Uint32(Encode(n, 4)) == n
  {
    WordBounds();
    LittleEndianRoundTrip(n, 4);
  }

  /** The two's complement of a number in 64 bits. */
  function Unsigned64(n: int): nat
    requires -TWO_63 <= n < TWO_63
  {
    if n < 0 then n + TWO_64 else n
  }

  lemma Int64RoundTrip(n: int)
    requires -TWO_63 <= n < TWO_63
    ensures |Encode(Unsigned64(n), 8)| == 8 && Int64(Encode(Unsigned64(n), 8)) == n
  {
    WordBounds();
    LittleEndianRoundTrip(Unsigned64(n), 8);
  }

  lemma Fields(a: seq<Byte>, b: seq<Byte>, c: seq<Byte>, rest: seq<Byte>)
    requires |a| == |b| == |c| == 4
    ensures (a + b + c + rest)[0..4] == a && (a + b + c + rest)[4..8] == b && (a + b + c + rest)[8..12] == c
    ensures (a + b + c + rest)[12..] == rest
  {
  }

  /** The averages the kernel scaled are recovered from the 24-byte layout (four padding bytes before the scale)
      and from the packed 20-byte one; a scale of zero stands for 2048. */
  lemma LayoutsDecode(l1: nat, l5: nat, l15: nat, scale: int, padding: seq<Byte>)
    requires l1 < TWO_32 && l5 < TWO_32 && l15 < TWO_32 && -TWO_63 <= scale < TWO_63
    requires |padding| == 4 || |padding| == 0
    ensures var data := Encode(l1, 4) + Encode(l5, 4) + Encode(l15, 4) + (padding + Encode(Unsigned64(scale), 8));
      var s := (if scale == 0 then 2048 else scale) as real;
      GetLoadAverage(Ok(data)) == Ok(LoadAverage(l1 as real / s, l5 as real / s, l15 as real / s))
  {
    Uint32RoundTrip(l1);
    Uint32RoundTrip(l5);
    Uint32RoundTrip(l15);
    Int64RoundTrip(scale);
    var front := Encode(l1, 4) + Encode(l5, 4) + Encode(l15, 4);
    var rest := padding + Encode(Unsigned64(scale), 8);
    Fields(Encode(l1, 4), Encode(l5, 4), Encode(l15, 4), rest);
    FscaleOffset(front, padding, Encode(Unsigned64(scale), 8));
  }

  lemma FscaleOffset(front: seq<Byte>, padding: seq<Byte>, scale: seq<Byte>)
    requires |front| == 12 && (|padding| == 4 || |padding| == 0) && |scale| == 8
    ensures Fscale(front + (padding + scale)) == if Int64(scale) == 0 then DEFAULT_FSCALE else Int64(scale)
  {
    var data := front + (padding + scale);
    assert data[12 + |padding|..20 + |padding|] == scale;
  }

  lemma ProductBelow(a: nat, b: nat, m: nat)
    requires a < m && b < m
    ensures a * b < m * m
  {
    assert a * b <= a * m;
    assert a * m < m * m;
  }

  lemma WordProduct(a: nat, b: nat)
    requires a < TWO_32 && b < TWO_32
    ensures 0 <= a * b < TWO_64
  {
    ProductBelow(a, b, TWO_32);
    assert TWO_32 * TWO_32 == TWO_64;
  }

  /** The free-byte product never wraps, for any answer of the kernel. */
  lemma FreeBytesNeverWrap(total: nat, size: nat, freeCount: Result<seq<Byte>>)
    requires size < TWO_32
    ensures GetMemoryStats(Ok(total), Ok(size), freeCount).Ok?
    ensures var stats := GetMemoryStats(Ok(total), Ok(size), freeCount).value;
      && stats.total == total && stats.pageSize == size
      && stats.freeBytes == stats.freePages * size < TWO_64
      && (freeCount.Err? || |freeCount.value| < 4 ==> stats.freeBytes == 0)
      && (freeCount.Ok? && |freeCount.value| >= 4 ==> stats.freePages == LittleEndian(freeCount.value[0..4]))
  {
    var free := match GetVMStat(freeCount) case Ok(n) => n case Err(_) => 0;
    assert free < TWO_32;
    WordProduct(free, size);
  }
}
