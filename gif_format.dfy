/** The fields of a GIF87a/GIF89a stream as the animated-GIF decoder reads
    them: what `read()` yields (a byte, or -1 at the end of the stream),
    Java's `&`, `|` and `<<` on the values it combines, little-endian
    shorts, the packed bit fields of the screen descriptor, the image
    descriptor and the graphic control extension, and colour table
    entries. */
module GifFormat {

  /** An unsigned byte: a stream byte, or a Java `byte` read back with `& 0xff`. */
  type Byte = b: int | 0 <= b < 256

  /** A Java `short`, a type of its own so that an array of them is never
      an array of `int`. */
  newtype Short = x: int | -0x8000 <= x < 0x8000

  const StatusOk: int := 0
  const StatusFormatError: int := 1
  const StatusOpenError: int := 2
  /** The size of the LZW code table. */
  const MaxStackSize: int := 4096

  /** A value `read()` can return. */
  predicate IsRead(b: int) {
    -1 <= b < 256
  }

  /** What `read()` yields with the cursor at `p`: the byte there, or -1
      once the stream is exhausted. */
  function ByteAt(input: seq<Byte>, p: int): (b: int)
    ensures IsRead(b)
    ensures b == -1 <==> !(0 <= p < |input|)
  {
    if 0 <= p < |input| then input[p] else -1
  }

  /** The low eight bits of a `read()` result: -1 has all of them set. */
  function Low8(b: int): Byte
    requires IsRead(b)
  {
    if b == -1 then 255 else b
  }

  function Pow2(k: nat): (p: nat)
    ensures p >= 1
  {
    if k == 0 then 1 else 2 * Pow2(k - 1)
  }

  lemma {:induction false} Pow2Monotone(j: nat, k: nat)
    requires j <= k
    ensures Pow2(j) <= Pow2(k)
    decreases k
  {
    if j < k {
      Pow2Monotone(j, k - 1);
    }
  }

  /** Java's `1 << s`: the shift distance is taken modulo 32 (so -1 shifts
      by 31) and the result is a 32-bit `int`. */
  function ShiftOne(s: int): int {
    if s % 32 == 31 then -0x8000_0000 else Pow2(s % 32)
  }

  /** The 32-bit `int` that Java's arithmetic wraps `x` to. */
  function Int32(x: int): (r: int)
    ensures -0x8000_0000 <= r < 0x8000_0000
    ensures -0x8000_0000 <= x < 0x8000_0000 ==> r == x
  {
    (x + 0x8000_0000) % 0x1_0000_0000 - 0x8000_0000
  }

  predicate IsInt32(x: int) {
    -0x8000_0000 <= x < 0x8000_0000
  }

  /** Java's `(short)` cast: the low sixteen bits, signed. */
  function Int16(x: int): (r: int)
    ensures -0x8000 <= r < 0x8000
    ensures -0x8000 <= x < 0x8000 ==> r == x
  {
    (x + 0x8000) % 0x1_0000 - 0x8000
  }

  /** Java's `x << s` on an `int`: multiplied by two to the shift distance
      modulo 32, and wrapped. */
  function ShiftLeft(x: int, s: int): int {
    Int32(x * Pow2(s % 32))
  }

  /** Java's `x >> s` on an `int`: the sign-extending shift, which is
      division by a power of two rounded down. */
  function ShiftRight(x: int, s: int): (r: int)
    ensures IsInt32(x) ==> IsInt32(r)
  {
    var d := Pow2(s % 32);
    DivBetween(x, d);
    x / d
  }

  /** Dividing by a positive number moves towards zero, never past it. */
  lemma DivBetween(x: int, d: int)
    requires d >= 1
    ensures 0 <= x ==> 0 <= x / d <= x
    ensures x < 0 ==> x <= x / d < 0
  {
    var q, m := x / d, x % d;
    assert x == d * q + m && 0 <= m < d;
    if q >= 0 {
      NonnegProduct(d - 1, q);
      assert d * q == (d - 1) * q + q;
    } else {
      NonnegProduct(d, -q - 1);
      assert d * (-q - 1) == -(d * q) - d;
    }
  }


  /** Java's `x & y` on two `int`s, through their two's complement bits. */
  function And32(x: int, y: int): int
    requires IsInt32(x) && IsInt32(y)
  {
    Int32(BitAnd(Unsigned(x), Unsigned(y)))
  }

  /** The table of `1 << s` roots fits in the 4096 LZW codes unless the
      shift distance, taken modulo 32, is 13 to 30. */
  lemma ShiftOneFits(s: int)
    ensures ShiftOne(s) <= MaxStackSize <==> !(13 <= s % 32 <= 30)
    ensures s % 32 != 31 ==> ShiftOne(s) >= 1
  {
    var k := s % 32;
    if k <= 12 {
      Pow2Monotone(k, 12);
      assert Pow2(12) == 4096;
    } else if k <= 30 {
      Pow2Monotone(13, k);
      assert Pow2(13) == 8192;
    }
  }

  /** Masking with zero clears every bit. */
  lemma AndZero(x: int)
    requires IsInt32(x)
    ensures And32(x, 0) == 0
  {
  }

  /** Java's `&` on non-negative values, bit by bit from the lowest. */
  function BitAnd(x: nat, y: nat): (r: nat)
    ensures r <= x && r <= y
    decreases x
  {
    if x == 0 || y == 0 then 0
    else 2 * BitAnd(x / 2, y / 2) + (if x % 2 == 1 && y % 2 == 1 then 1 else 0)
  }

  /** Java's `|` on non-negative values, bit by bit from the lowest. */
  function BitOr(x: nat, y: nat): (r: nat)
    ensures r >= x && r >= y
    decreases x + y
  {
    if x == 0 then y
    else if y == 0 then x
    else 2 * BitOr(x / 2, y / 2) + (if x % 2 == 1 || y % 2 == 1 then 1 else 0)
  }

  lemma NonnegProduct(a: int, b: int)
    requires a >= 0 && b >= 0
    ensures a * b >= 0
  {
  }

  /** A quotient and remainder in range are the quotient and remainder. */
  lemma DivModUnique(x: int, d: int, q: int, r: int)
    requires d > 0 && 0 <= r < d && x == d * q + r
    ensures x / d == q && x % d == r
  {
    var q', r' := x / d, x % d;
    assert d * (q - q') == r' - r;
    if q > q' {
      NonnegProduct(d, q - q' - 1);
    } else if q < q' {
      NonnegProduct(d, q' - q - 1);
    }
  }

  /** Dividing by `2 * m` is halving, then dividing by `m`; the remainder
      is the lowest bit below twice the remainder of the half. */
  lemma ModDouble(x: nat, m: nat)
    requires m >= 1
    ensures x % (2 * m) == 2 * ((x / 2) % m) + x % 2
    ensures (x / 2) / m == x / (2 * m)
  {
    var q, b := (x / 2) / m, (x / 2) % m;
    assert x / 2 == m * q + b;
    assert x == 2 * (x / 2) + x % 2;
    assert x == (2 * m) * q + (2 * b + x % 2);
    DivModUnique(x, 2 * m, q, 2 * b + x % 2);
  }

  /** A mask of the `k` low bits keeps the remainder modulo `2^k`. */
  lemma {:induction false} LowMask(x: nat, k: nat)
    ensures BitAnd(x, Pow2(k) - 1) == x % Pow2(k)
    decreases k
  {
    if k == 0 {
      assert BitAnd(x, 0) == 0 && x % 1 == 0;
    } else if x == 0 {
      DivModUnique(0, Pow2(k), 0, 0);
    } else {
      var h := Pow2(k - 1);
      var m := Pow2(k) - 1;
      assert m == 2 * (h - 1) + 1;
      DivModUnique(m, 2, h - 1, 1);
      assert BitAnd(x, m) == 2 * BitAnd(x / 2, h - 1) + x % 2;
      LowMask(x / 2, k - 1);
      ModDouble(x, h);
      assert BitAnd(x, m) == x % (2 * h);
    }
  }

  /** A single-bit mask keeps bit `k`. */
  lemma {:induction false} SingleBit(x: nat, k: nat)
    ensures BitAnd(x, Pow2(k)) == if (x / Pow2(k)) % 2 == 1 then Pow2(k) else 0
    decreases k
  {
    if x == 0 {
      DivModUnique(x, Pow2(k), 0, 0);
    } else if k == 0 {
      assert BitAnd(x, 1) == x % 2;
    } else {
      var h, p := Pow2(k - 1), Pow2(k);
      assert p == 2 * h && p % 2 == 0 && p / 2 == h;
      SingleBit(x / 2, k - 1);
      ModDouble(x, h);
      assert x / p == (x / 2) / h;
      assert BitAnd(x, p) == 2 * BitAnd(x / 2, h);
    }
  }

  /** A mask whose two low bits are clear masks the value shifted by two. */
  lemma ShiftedMask(x: nat, m: nat)
    ensures BitAnd(x, 4 * m) == 4 * BitAnd(x / 4, m)
  {
    if x > 0 && m > 0 {
      ModDouble(x, 2);
      if x / 2 > 0 {
        assert BitAnd(x / 2, 2 * m) == 2 * BitAnd(x / 4, m);
      }
    }
  }

  /** `|` of a value below `2^k` and a multiple of `2^k` is their sum. */
  lemma {:induction false} DisjointOr(x: nat, y: nat, k: nat)
    requires x < Pow2(k) && y % Pow2(k) == 0
    ensures BitOr(x, y) == x + y
    decreases k
  {
    if k > 0 && x > 0 && y > 0 {
      ModDouble(y, Pow2(k - 1));
      DisjointOr(x / 2, y / 2, k - 1);
    }
  }

  /** Java's `%` on `int` by a positive divisor: the remainder keeps the
      dividend's sign. */
  function Rem(x: int, m: int): (r: int)
    requires m > 0
    ensures x >= 0 ==> r == x % m
    ensures x < 0 ==> -m < r <= 0 && (x - r) % m == 0
  {
    if x >= 0 then x % m
    else
      var y := -x;
      DivModUnique(x + y % m, m, -(y / m), 0);
      -(y % m)
  }

  /** `read() | (read() << 8)`: a little-endian short. A first -1 makes
      the whole value -1; a -1 high byte is shifted to -256, which keeps
      the low byte's bits. */
  function ShortOf(lo: int, hi: int): int
    requires IsRead(lo) && IsRead(hi)
  {
    if lo == -1 then -1
    else if hi == -1 then lo - 256
    else lo + 256 * hi
  }

  /** Two bytes make the short they encode, least significant first, and
      Java's `lo | (hi << 8)` computes it. */
  lemma ShortOfBytes(lo: Byte, hi: Byte)
    ensures ShortOf(lo, hi) == BitOr(lo, hi * 256)
    ensures 0 <= ShortOf(lo, hi) < 65536
  {
    assert Pow2(8) == 256;
    DisjointOr(lo, hi * 256, 8);
  }

  /** Every value in 0..65535 is read back from its two bytes. */
  lemma ShortRoundTrip(v: int)
    requires 0 <= v < 65536
    ensures ShortOf(v % 256, v / 256) == v
  {
    ShortOfBytes(v % 256, v / 256);
  }

  /** Whatever the stream holds, a short is at least -256 and below 65536. */
  lemma ShortBounds(lo: int, hi: int)
    requires IsRead(lo) && IsRead(hi)
    ensures -256 <= ShortOf(lo, hi) < 65536
  {
    if lo != -1 && hi != -1 {
      ShortOfBytes(lo, hi);
    }
  }

  /** `packed & mask` for a `read()` result and a mask below 256. */
  function AndMask(packed: int, mask: Byte): int
    requires IsRead(packed)
  {
    BitAnd(Low8(packed), mask)
  }

  /** The global colour table flag of the screen descriptor, and the local
      one of the image descriptor: `(packed & 0x80) != 0`, the top bit. */
  predicate TableFlag(packed: int)
    requires IsRead(packed)
  {
    Low8(packed) >= 128
  }

  lemma TableFlagBitwise(packed: int)
    requires IsRead(packed)
    ensures TableFlag(packed) <==> AndMask(packed, 0x80) != 0
  {
    var x := Low8(packed);
    SingleBit(x, 7);
    assert Pow2(7) == 128;
    if x >= 128 {
      DivModUnique(x, 128, 1, x - 128);
    } else {
      DivModUnique(x, 128, 0, x);
    }
  }

  /** The interlace flag of the image descriptor, `(packed & 0x40) != 0`. */
  predicate InterlaceFlag(packed: int)
    requires IsRead(packed)
  {
    (Low8(packed) / 64) % 2 == 1
  }

  lemma InterlaceFlagBitwise(packed: int)
    requires IsRead(packed)
    ensures InterlaceFlag(packed) <==> AndMask(packed, 0x40) != 0
  {
    SingleBit(Low8(packed), 6);
  }

  /** The transparent colour flag of the graphic control extension,
      `(packed & 1) != 0`. */
  predicate TransparencyFlag(packed: int)
    requires IsRead(packed)
  {
    Low8(packed) % 2 == 1
  }

  lemma TransparencyFlagBitwise(packed: int)
    requires IsRead(packed)
    ensures TransparencyFlag(packed) <==> AndMask(packed, 1) != 0
  {
    SingleBit(Low8(packed), 0);
  }

  /** The size of a colour table: a power of two entries chosen by the
      three low bits of the packed fields. */
  function GctSize(packed: int): int
    requires IsRead(packed)
  {
    Pow2(Low8(packed) % 8 + 1)
  }

  /** `2 << (packed & 7)`, the global table's size as computed, is that
      power of two, from 2 to 256. */
  lemma GctSizeBitwise(packed: int)
    requires IsRead(packed)
    ensures GctSize(packed) == 2 * ShiftOne(AndMask(packed, 7))
    ensures 2 <= GctSize(packed) <= 256
  {
    var k := AndMask(packed, 7);
    assert k == Low8(packed) % 8 by {
      LowMask(Low8(packed), 3);
      assert Pow2(3) == 8;
    }
    assert 2 <= 2 * Pow2(k) <= 256 by {
      Pow2Monotone(k + 1, 8);
      assert Pow2(8) == 256;
    }
    assert k % 32 == k;
  }

  /** `(int) Math.pow(2, (packed & 7) + 1)`: the local colour table size. */
  function LctSize(packed: int): int
    requires IsRead(packed)
  {
    Pow2(AndMask(packed, 7) + 1)
  }

  /** The local table size is computed as the global one is: the same
      packed bits give the same number of entries. */
  lemma LctSizeIsGctSize(packed: int)
    requires IsRead(packed)
    ensures LctSize(packed) == GctSize(packed)
  {
    LowMask(Low8(packed), 3);
  }

  /** The disposal method, bits 2 to 4, with 0 ("no action") taken as 1
      ("leave in place"). */
  function DisposalMethod(packed: int): int
    requires IsRead(packed)
  {
    var d := (Low8(packed) / 4) % 8;
    if d == 0 then 1 else d
  }

  /** `(packed & 0x1c) >> 2`, then 0 replaced by 1, is the disposal
      method, which is never 0. */
  lemma DisposalMethodBitwise(packed: int)
    requires IsRead(packed)
    ensures DisposalMethod(packed) == (if AndMask(packed, 0x1c) / 4 == 0 then 1 else AndMask(packed, 0x1c) / 4)
    ensures 1 <= DisposalMethod(packed) <= 7
  {
    ShiftedMask(Low8(packed), 7);
    LowMask(Low8(packed) / 4, 3);
  }

  /** An opaque colour with the three channels, as a Java `int`. */
  function Argb(r: Byte, g: Byte, b: Byte): int {
    Int32(0xff00_0000 + r * 0x1_0000 + g * 0x100 + b)
  }

  /** The value of an entry, unsigned. */
  function Unsigned(c: int): int {
    if c < 0 then c + 0x1_0000_0000 else c
  }

  /** The powers of two at byte boundaries. */
  lemma BytePowers()
    ensures Pow2(8) == 0x100 && Pow2(16) == 0x1_0000 && Pow2(24) == 0x100_0000
  {
    assert Pow2(8) == 0x100;
    Pow2Product(8, 8);
    Pow2Product(16, 8);
  }

  /** Values from 2^31 up wrap to negative `int`s, and back. */
  lemma Int32High(x: int)
    requires 0x8000_0000 <= x < 0x1_0000_0000
    ensures Int32(x) == x - 0x1_0000_0000 && Unsigned(Int32(x)) == x
  {
    DivModUnique(x + 0x8000_0000, 0x1_0000_0000, 1, x - 0x8000_0000);
  }

  /** The bits of an entry do not overlap: unsigned, it is the sum of the
      alpha, red, green and blue parts. */
  /** Java's `0xff000000 | (r << 16) | (g << 8) | b` computes the entry:
      the parts do not overlap, so the `|` is a sum, and the top bit makes
      the `int` negative. */
  lemma ArgbBitwise(r: Byte, g: Byte, b: Byte)
    ensures Argb(r, g, b) == Int32(BitOr(b, BitOr(g * 0x100, BitOr(r * 0x1_0000, 0xff00_0000))))
    ensures Argb(r, g, b) < 0
    ensures Unsigned(Argb(r, g, b)) == 0xff00_0000 + r * 0x1_0000 + g * 0x100 + b
  {
    var red, green := r * 0x1_0000, g * 0x100;
    BytePowers();
    var high := BitOr(red, 0xff00_0000);
    assert high == red + 0xff00_0000 by {
      DisjointOr(red, 0xff00_0000, 24);
    }
    var middle := BitOr(green, high);
    assert middle == green + high by {
      DivModUnique(high, 0x1_0000, r + 0xff00, 0);
      DisjointOr(green, high, 16);
    }
    var all := BitOr(b, middle);
    assert all == b + middle by {
      DivModUnique(middle, 0x100, g + r * 0x100 + 0xff_0000, 0);
      DisjointOr(b, middle, 8);
    }
    Int32High(all);
  }

  /** A colour table entry is opaque and keeps its three channels: alpha
      0xff in the top byte, then red, green and blue. It is never 0, the
      value a transparent entry is given. */
  lemma ArgbChannels(r: Byte, g: Byte, b: Byte)
    ensures Argb(r, g, b) < 0
    ensures Unsigned(Argb(r, g, b)) / 0x100_0000 == 0xff
    ensures (Unsigned(Argb(r, g, b)) / 0x1_0000) % 0x100 == r
    ensures (Unsigned(Argb(r, g, b)) / 0x100) % 0x100 == g
    ensures Unsigned(Argb(r, g, b)) % 0x100 == b
  {
    ArgbBitwise(r, g, b);
    var u := Unsigned(Argb(r, g, b));
    DivModUnique(u, 0x100_0000, 0xff, b + g * 0x100 + r * 0x1_0000);
    DivModUnique(u, 0x1_0000, 0xff00 + r, b + g * 0x100);
    DivModUnique(0xff00 + r, 0x100, 0xff, r);
    DivModUnique(u, 0x100, 0xff_0000 + r * 0x100 + g, b);
    DivModUnique(0xff_0000 + r * 0x100 + g, 0x100, 0xff00 + r, g);
  }

  lemma {:induction false} Pow2Product(j: nat, k: nat)
    ensures Pow2(j + k) == Pow2(j) * Pow2(k)
    decreases j
  {
    if j > 0 {
      Pow2Product(j - 1, k);
    }
  }

  /** The 256 entries `readColorTable` builds from `3 * ncolors` bytes: the
      first `ncolors` from consecutive red, green and blue bytes, the rest
      0. */
  function ColorTable(c: seq<Byte>, ncolors: nat): (tab: seq<int>)
    requires |c| >= 3 * ncolors
    ensures |tab| == 256
    ensures forall i :: 0 <= i < ncolors && i < 256 ==> tab[i] == Argb(c[3 * i], c[3 * i + 1], c[3 * i + 2])
    ensures forall i :: ncolors <= i < 256 ==> tab[i] == 0
  {
    seq(256, i requires 0 <= i < 256 => if i < ncolors then Argb(c[3 * i], c[3 * i + 1], c[3 * i + 2]) else 0)
  }

  /** The signature `readHeader` accepts: the stream begins "GIF". */
  predicate GifSignature(b0: int, b1: int, b2: int) {
    b0 == 'G' as int && b1 == 'I' as int && b2 == 'F' as int
  }

  /** The identifier of the application extension that carries the loop
      count, "NETSCAPE2.0", as bytes. */
  const Netscape: seq<int> := [78, 69, 84, 83, 67, 65, 80, 69, 50, 46, 48]

  lemma NetscapeSpelling()
    ensures |Netscape| == 11
    ensures forall i :: 0 <= i < 11 ==> Netscape[i] == "NETSCAPE2.0"[i] as int
  {
  }
}
