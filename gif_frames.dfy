/** How `setPixels` composes a frame: the pixmap the previous frame left
    (restored from libGDX's RGBA8888 pixels), the previous image's
    rectangle cleared when its disposal method asks for it, and the rows of
    the current image drawn through the active colour table, in interlaced
    order when the image is interlaced. Index arithmetic is Java's 32-bit
    `int` arithmetic; an index out of range is the exception it throws. */
module GifFrames {
  import opened Wrappers
  import opened GifFormat
  import opened Interlace

  /** A `DixieMap`: its size and its RGBA8888 pixels, row by row. */
  datatype Pixmap = Pixmap(width: int, height: int, rgba: seq<int>)

  /** A rectangle of the frame, in pixels. */
  datatype Rect = Rect(x: int, y: int, w: int, h: int)

  /** How many rows a loop `for (i = 0; i < h; i++)` visits. */
  function Rows(h: int): nat {
    if h < 0 then 0 else h
  }

  /** `DixieMap`'s conversion of an ARGB8888 pixel to RGBA8888: the 32 bits
      rotated left by eight, alpha moving from the top byte to the bottom. */
  function ToRgba(argb: int): int {
    var u := Unsigned(Int32(argb));
    Int32(u % 0x100_0000 * 0x100 + u / 0x100_0000)
  }

  /** `getPixels`' conversion back, RGBA8888 to ARGB8888: the bits rotated
      right by eight. */
  function ToArgb(rgba: int): int {
    var u := Unsigned(Int32(rgba));
    Int32(u / 0x100 + u % 0x100 * 0x100_0000)
  }

  /** A 32-bit pattern read as unsigned and back. */
  lemma UnsignedInt32(v: int)
    requires 0 <= v < 0x1_0000_0000
    ensures Unsigned(Int32(v)) == v
  {
    if v >= 0x8000_0000 {
      Int32High(v);
    }
  }

  lemma Int32Unsigned(x: int)
    requires IsInt32(x)
    ensures 0 <= Unsigned(x) < 0x1_0000_0000 && Int32(Unsigned(x)) == x
  {
    if x < 0 {
      Int32High(x + 0x1_0000_0000);
    }
  }

  /** A pixel stored in a pixmap and read back is the pixel drawn: the two
      rotations undo each other. */
  lemma RgbaRoundTrip(x: int)
    requires IsInt32(x)
    ensures ToArgb(ToRgba(x)) == x
  {
    var u := Unsigned(x);
    Int32Unsigned(x);
    var hi, lo := u / 0x100_0000, u % 0x100_0000;
    assert u == 0x100_0000 * hi + lo && 0 <= hi < 0x100;
    var v := lo * 0x100 + hi;
    assert ToRgba(x) == Int32(v);
    UnsignedInt32(v);
    DivModUnique(v, 0x100, lo, hi);
    assert ToArgb(Int32(v)) == Int32(lo + hi * 0x100_0000);
  }

  /** `new DixieMap(data, w, h)`: a pixmap of the given size holding the
      ARGB pixels `data`, converted; a pixmap of negative size draws
      nothing. */
  function PixmapOf(data: seq<int>, w: int, h: int): (p: Pixmap)
    ensures p.width == w && p.height == h
    ensures w >= 0 && h >= 0 ==> |p.rgba| == |data| && forall k :: 0 <= k < |data| ==> p.rgba[k] == ToRgba(data[k])
  {
    Pixmap(w, h, if w >= 0 && h >= 0 then seq(|data|, k requires 0 <= k < |data| => ToRgba(data[k])) else [])
  }

  /** `new DixieMap(w, h)`: a blank pixmap. */
  function BlankPixmap(w: int, h: int): Pixmap {
    Pixmap(w, h, seq(if w > 0 && h > 0 then w * h else 0, _ => 0))
  }

  /** Every pixel of a composed frame is a 32-bit value. */
  ghost predicate AllInt32(d: seq<int>) {
    forall k :: 0 <= k < |d| ==> IsInt32(d[k])
  }

  /** The pixmap of a composed frame gives its pixels back. */
  lemma PixmapRoundTrip(data: seq<int>, w: int, h: int)
    requires AllInt32(data) && w >= 0 && h >= 0
    ensures |PixmapOf(data, w, h).rgba| == |data|
    ensures forall k :: 0 <= k < |data| ==> ToArgb(PixmapOf(data, w, h).rgba[k]) == data[k]
  {
    forall k | 0 <= k < |data|
      ensures ToArgb(PixmapOf(data, w, h).rgba[k]) == data[k]
    {
      RgbaRoundTrip(data[k]);
    }
  }

  /** `d` with the pixels `from .. to - 1` set to `c`. */
  function Fill(d: seq<int>, from: int, to: int, c: int): (r: seq<int>)
    ensures |r| == |d|
  {
    seq(|d|, j requires 0 <= j < |d| => if from <= j < to then c else d[j])
  }

  /** The first pixel of row `i` of rectangle `r` in a frame `width`
      pixels wide, and the pixel past its end, as `setPixels` computes them. */
  function RectRowStart(r: Rect, width: int, i: int): int {
    Int32(Int32((r.y + i) * width) + r.x)
  }

  function RectRowEnd(r: Rect, width: int, i: int): int {
    Int32(RectRowStart(r, width, i) + r.w)
  }

  /** A run of pixels `from .. to - 1` lies within `n` pixels (or is empty). */
  predicate SpanFits(n: int, from: int, to: int) {
    from < to ==> 0 <= from && to <= n
  }

  /** Row `i` of the rectangle lies within the frame's `n` pixels. */
  predicate RectRowFits(n: int, r: Rect, width: int, i: int) {
    SpanFits(n, RectRowStart(r, width, i), RectRowEnd(r, width, i))
  }

  /** Every row of the rectangle lies within the frame's `n` pixels. */
  predicate RectFits(n: int, r: Rect, width: int) {
    forall i :: 0 <= i < r.h ==> RectRowFits(n, r, width, i)
  }

  /** The frame with the first `rows` rows of rectangle `r` set to `c`. */
  function FilledRect(d: seq<int>, r: Rect, width: int, c: int, rows: nat): (e: seq<int>)
    ensures |e| == |d|
  {
    if rows == 0 then d
    else Fill(FilledRect(d, r, width, c, rows - 1), RectRowStart(r, width, rows - 1), RectRowEnd(r, width, rows - 1), c)
  }

  /** The colour source pixel `s` maps to through the active table (0, the
      transparent colour, when there is no such pixel). */
  function ColorOf(px: seq<Byte>, act: seq<int>, s: int): int {
    if 0 <= s < |px| && px[s] < |act| then act[px[s]] else 0
  }

  /** Destination pixel `j` of a row drawn from `dx`, with source pixels
      from `sx`: its source pixel exists, and when that is not transparent
      it lies within the frame's `n` pixels. */
  predicate PixelFits(n: int, px: seq<Byte>, act: seq<int>, dx: int, sx: int, j: int) {
    0 <= j - dx + sx < |px| && (ColorOf(px, act, j - dx + sx) != 0 ==> 0 <= j < n)
  }

  predicate RowFits(n: int, px: seq<Byte>, act: seq<int>, dx: int, dlim: int, sx: int) {
    forall j :: dx <= j < dlim ==> PixelFits(n, px, act, dx, sx, j)
  }

  /** The frame with destination pixels `dx .. dlim - 1` taking the colours
      of source pixels `sx ..`, each one that is not transparent. */
  function DrawnRow(d: seq<int>, px: seq<Byte>, act: seq<int>, dx: int, dlim: int, sx: int): (r: seq<int>)
    ensures |r| == |d|
  {
    seq(|d|, j requires 0 <= j < |d| =>
      var c := ColorOf(px, act, j - dx + sx);
      if dx <= j < dlim && c != 0 then c else d[j])
  }

  /** The order in which the `h` rows of an image arrive, as the lines
      they belong on: interlaced, or top to bottom. */
  function RowOrder(h: nat, interlace: bool): (rows: seq<int>)
    ensures |rows| == h
    ensures forall i :: 0 <= i < h ==> 0 <= rows[i] < h
  {
    if interlace then InterlacedRowsPermutation(h); InterlacedRows(h) else seq(h, i => i)
  }

  /** The frame line row `i` of the image in rectangle `r` is drawn on. */
  function LineOf(r: Rect, interlace: bool, i: int): int
    requires 0 <= i < r.h
  {
    Int32(RowOrder(r.h, interlace)[i] + r.y)
  }

  /** Where `setPixels` draws row `i` on `line`: from `RowStart`, up to
      `RowLimit` (the image's width, cut at the frame's right edge), from
      source pixel `RowSource`. */
  function RowStart(r: Rect, width: int, line: int): int {
    Int32(Int32(line * width) + r.x)
  }

  function RowLimit(r: Rect, width: int, line: int): int {
    var k := Int32(line * width);
    var dlim := Int32(RowStart(r, width, line) + r.w);
    if Int32(k + width) < dlim then Int32(k + width) else dlim
  }

  function RowSource(r: Rect, i: int): int {
    Int32(i * r.w)
  }

  /** Row `i` of the image drawn on frame `e`: skipped when its line lies
      below the frame; a row that reads past the source pixels or draws
      outside the frame throws. */
  function DrawLine(e: seq<int>, px: seq<Byte>, act: seq<int>, r: Rect, interlace: bool, width: int, height: int, i: int): (f: Result<seq<int>, string>)
    requires 0 <= i < r.h
    ensures f.Ok? ==> |f.value| == |e|
    ensures f.Err? ==> f.error == "ArrayIndexOutOfBoundsException"
  {
    var line := LineOf(r, interlace, i);
    var dx, dlim, sx := RowStart(r, width, line), RowLimit(r, width, line), RowSource(r, i);
    if line >= height then Ok(e)
    else if RowFits(|e|, px, act, dx, dlim, sx) then Ok(DrawnRow(e, px, act, dx, dlim, sx))
    else Err("ArrayIndexOutOfBoundsException")
  }

  /** The frame after the first `n` rows of the image have been drawn on
      `d`, or the exception the first row that throws throws. */
  function Compose(d: seq<int>, px: seq<Byte>, act: seq<int>, r: Rect, interlace: bool, width: int, height: int, n: nat): (e: Result<seq<int>, string>)
    requires n <= r.h
    ensures e.Ok? ==> |e.value| == |d|
    ensures e.Err? ==> e.error == "ArrayIndexOutOfBoundsException"
  {
    if n == 0 then Ok(d)
    else
      var prev := Compose(d, px, act, r, interlace, width, height, n - 1);
      if prev.Err? then prev else DrawLine(prev.value, px, act, r, interlace, width, height, n - 1)
  }

  /** `d` with its first `m` pixels taken from `prev`, converted back to
      ARGB. */
  function CopiedUpTo(d: seq<int>, prev: Pixmap, m: int): (r: seq<int>)
    ensures |r| == |d|
  {
    seq(|d|, j requires 0 <= j < |d| => if j < m && j < |prev.rgba| then ToArgb(prev.rgba[j]) else d[j])
  }

  /** `getPixels(dest, width, width, height)` of the previous frame's
      pixmap: with a positive size, the first `width * height` pixels of
      `prev`, converted back to ARGB; otherwise nothing. */
  function Restored(d: seq<int>, prev: Pixmap, width: int, height: int): (r: seq<int>)
    requires width > 0 && height > 0 ==> |d| <= |prev.rgba|
    ensures |r| == |d|
    ensures width > 0 && height > 0 ==> forall j :: 0 <= j < |d| ==> r[j] == ToArgb(prev.rgba[j])
    ensures width <= 0 || height <= 0 ==> r == d
  {
    if width > 0 && height > 0 then CopiedUpTo(d, prev, |d|) else d
  }

  /** Row `k` of a frame `width` pixels wide ends within its `height`
      rows. */
  lemma RowWithin(k: int, width: int, height: int)
    requires 0 <= k < height && width > 0
    ensures 0 <= k * width && k * width + width <= height * width
  {
    NonnegProduct(k, width);
    NonnegProduct(height - k - 1, width);
    assert (height - k - 1) * width == height * width - k * width - width;
  }

  /** The inner loop of `getPixels`: the `width` pixels of one row from
      `offset`; a pixel past the end of `prev` throws. */
  method CopyRow(prev: Pixmap, dest: array<int>, offset: int, width: int) returns (o: Result<(), string>)
    requires 0 <= offset && offset + width <= dest.Length && width > 0
    modifies dest
    ensures o.Err? <==> |prev.rgba| < offset + width
    ensures o.Err? ==> o.error == "IndexOutOfBoundsException"
    ensures o.Ok? ==> forall j :: 0 <= j < dest.Length ==> dest[j] == if offset <= j < offset + width then ToArgb(prev.rgba[j]) else old(dest[j])
  {
    o := Ok(());
    var l, at := 0, offset;
    while l < width && o.Ok?
      invariant 0 <= l <= width && at == offset + l
      invariant o.Ok? && l > 0 ==> at <= |prev.rgba|
      invariant o.Ok? ==> forall j :: 0 <= j < dest.Length ==> dest[j] == if offset <= j < at then ToArgb(prev.rgba[j]) else old(dest[j])
      invariant o.Err? ==> o.error == "IndexOutOfBoundsException" && |prev.rgba| < offset + width
      decreases width - l, if o.Ok? then 1 else 0
    {
      if at >= |prev.rgba| {
        o := Err("IndexOutOfBoundsException");
      } else {
        dest[at] := ToArgb(prev.rgba[at]);
        at := at + 1;
        l := l + 1;
      }
    }
  }

  /** `getPixels(dest, width, width, height)`: row by row, the previous
      frame's pixels, converted back, into `dest`; a pixmap too small for
      the frame throws from its byte buffer. */
  method CopyPixels(prev: Pixmap, dest: array<int>, width: int, height: int) returns (o: Result<(), string>)
    requires width > 0 && height > 0 ==> dest.Length == width * height
    modifies dest
    ensures o.Err? <==> width > 0 && height > 0 && |prev.rgba| < width * height
    ensures o.Err? ==> o.error == "IndexOutOfBoundsException"
    ensures o.Ok? ==> dest[..] == Restored(old(dest[..]), prev, width, height)
  {
    o := Ok(());
    var k, offset := 0, 0;
    while k < height && o.Ok?
      invariant 0 <= k <= Rows(height)
      invariant width > 0 ==> offset == k * width
      invariant o.Ok? && width > 0 ==> offset <= |prev.rgba|
      invariant o.Ok? ==> dest[..] == CopiedUpTo(old(dest[..]), prev, if width > 0 then offset else 0)
      invariant o.Err? ==> o.error == "IndexOutOfBoundsException" && width > 0 && height > 0 && |prev.rgba| < width * height
      decreases height - k, if o.Ok? then 1 else 0
    {
      if width > 0 {
        RowWithin(k, width, height);
        o := CopyRow(prev, dest, offset, width);
        if o.Ok? {
          assert dest[..] == CopiedUpTo(old(dest[..]), prev, offset + width);
        }
      }
      offset := offset + width;
      k := k + 1;
    }
    if o.Ok? && (width <= 0 || height <= 0) {
      assert dest[..] == old(dest[..]);
    }
  }

  /** The inner loop of the rectangle clearing: pixels `n1 .. n2 - 1` set
      to `c`; one outside the frame throws. */
  method FillSpan(dest: array<int>, n1: int, n2: int, c: int) returns (o: Result<(), string>)
    modifies dest
    ensures o.Err? <==> !SpanFits(dest.Length, n1, n2)
    ensures o.Err? ==> o.error == "ArrayIndexOutOfBoundsException"
    ensures o.Ok? ==> dest[..] == Fill(old(dest[..]), n1, n2, c)
  {
    o := Ok(());
    var k := n1;
    while k < n2 && o.Ok?
      invariant n1 <= k && (o.Ok? && k > n1 ==> 0 <= n1 && k <= n2 && k <= dest.Length)
      invariant o.Ok? ==> dest[..] == Fill(old(dest[..]), n1, k, c)
      invariant o.Err? ==> o.error == "ArrayIndexOutOfBoundsException" && !SpanFits(dest.Length, n1, n2)
      decreases n2 - k, if o.Ok? then 1 else 0
    {
      if !(0 <= k < dest.Length) {
        o := Err("ArrayIndexOutOfBoundsException");
      } else {
        dest[k] := c;
        k := k + 1;
        assert dest[..] == Fill(old(dest[..]), n1, k, c);
      }
    }
    if o.Ok? {
      assert dest[..] == Fill(old(dest[..]), n1, n2, c);
    }
  }

  /** The loops of `setPixels` that clear the previous image's rectangle,
      row by row. */
  method FillRect(dest: array<int>, r: Rect, width: int, c: int) returns (o: Result<(), string>)
    modifies dest
    ensures o.Err? <==> !RectFits(dest.Length, r, width)
    ensures o.Err? ==> o.error == "ArrayIndexOutOfBoundsException"
    ensures o.Ok? ==> dest[..] == FilledRect(old(dest[..]), r, width, c, Rows(r.h))
  {
    o := Ok(());
    var i := 0;
    while i < r.h && o.Ok?
      invariant 0 <= i <= Rows(r.h)
      invariant o.Ok? ==> dest[..] == FilledRect(old(dest[..]), r, width, c, i)
      invariant o.Ok? ==> forall t :: 0 <= t < i ==> RectRowFits(dest.Length, r, width, t)
      invariant o.Err? ==> o.error == "ArrayIndexOutOfBoundsException" && 0 < i <= r.h && !RectRowFits(dest.Length, r, width, i - 1)
      decreases r.h - i, if o.Ok? then 1 else 0
    {
      o := FillSpan(dest, RectRowStart(r, width, i), RectRowEnd(r, width, i), c);
      i := i + 1;
    }
  }

  /** The inner loop of `setPixels`: destination pixels `dx .. dlim - 1`
      take, one source pixel after another from `sx`, the colour it maps
      to, unless that is transparent. A source pixel that does not exist,
      or a destination pixel outside the frame for a colour to store,
      throws. */
  method DrawRow(dest: array<int>, px: array<Byte>, act: array<int>, dx: int, dlim: int, sx: int) returns (o: Result<(), string>)
    requires act.Length == 256 && dest != act
    modifies dest
    ensures o.Err? <==> !RowFits(dest.Length, px[..], act[..], dx, dlim, sx)
    ensures o.Err? ==> o.error == "ArrayIndexOutOfBoundsException"
    ensures o.Ok? ==> dest[..] == DrawnRow(old(dest[..]), px[..], act[..], dx, dlim, sx)
  {
    o := Ok(());
    var x, s := dx, sx;
    while x < dlim && o.Ok?
      invariant dx <= x && (x > dx ==> x <= dlim) && s == x - dx + sx
      invariant o.Ok? ==> forall j :: dx <= j < x ==> PixelFits(dest.Length, px[..], act[..], dx, sx, j)
      invariant o.Ok? ==> dest[..] == DrawnRow(old(dest[..]), px[..], act[..], dx, x, sx)
      invariant o.Err? ==> o.error == "ArrayIndexOutOfBoundsException" && x < dlim && !PixelFits(dest.Length, px[..], act[..], dx, sx, x)
      decreases dlim - x, if o.Ok? then 1 else 0
    {
      if !(0 <= s < px.Length) {
        o := Err("ArrayIndexOutOfBoundsException");
      } else {
        var index := px[s];
        var c := act[index];
        assert c == ColorOf(px[..], act[..], x - dx + sx);
        if c != 0 {
          if !(0 <= x < dest.Length) {
            o := Err("ArrayIndexOutOfBoundsException");
          } else {
            dest[x] := c;
          }
        }
        if o.Ok? {
          x, s := x + 1, s + 1;
          assert dest[..] == DrawnRow(old(dest[..]), px[..], act[..], dx, x, sx);
        }
      }
    }
  }

  /** Drawing one more row, on a frame composed without error so far. */
  lemma ComposeNext(d: seq<int>, px: seq<Byte>, act: seq<int>, r: Rect, interlace: bool, width: int, height: int, n: nat, e: seq<int>)
    requires n < r.h && Compose(d, px, act, r, interlace, width, height, n) == Ok(e)
    ensures Compose(d, px, act, r, interlace, width, height, n + 1) == DrawLine(e, px, act, r, interlace, width, height, n)
  {
  }

  /** Once a row has thrown, drawing more rows does not help. */
  lemma {:induction false} ComposeErrStays(d: seq<int>, px: seq<Byte>, act: seq<int>, r: Rect, interlace: bool, width: int, height: int, m: nat, n: nat)
    requires m <= n <= r.h
    requires Compose(d, px, act, r, interlace, width, height, m).Err?
    ensures Compose(d, px, act, r, interlace, width, height, n).Err?
    decreases n - m
  {
    if m < n {
      ComposeErrStays(d, px, act, r, interlace, width, height, m + 1, n);
    }
  }

  /** A pass whose rows are used up while rows remain gives way to the
      next pass: the pass switch of `setPixels` sets up that pass's first
      row and step. */
  lemma PassSwitch(h: int, rest: seq<int>, pass: int, inc: int, iline: int)
    requires 1 <= pass <= 4 && inc == PassStep(pass) && iline >= h
    requires |rest| > 0 && rest == Run(iline, inc, h) + Passes(pass + 1, h)
    ensures pass < 4
    ensures SwitchPass(pass + 1, inc, iline).1 == PassStep(pass + 1)
    ensures rest == Run(SwitchPass(pass + 1, inc, iline).0, PassStep(pass + 1), h) + Passes(pass + 2, h)
  {
    assert Run(iline, inc, h) == [];
    if pass == 4 {
      assert false;
    }
  }

  /** A pass with a row left yields that row, and moves on by its step. */
  lemma TakeRow(rest: seq<int>, h: int, inc: nat, iline: int, tail: seq<int>)
    requires iline < h && inc > 0
    requires rest == Run(iline, inc, h) + tail
    ensures |rest| > 0 && rest[0] == iline && rest[1..] == Run(iline + inc, inc, h) + tail
  {
    assert rest == [iline] + (Run(iline + inc, inc, h) + tail);
  }

  /** The pass bookkeeping of `setPixels` for an interlaced image, with the
      pass switch repeated until a pass with a row left is found: the line
      of row `i` and the state for row `i + 1`. */
  method NextInterlacedLine(ghost rows: seq<int>, h: int, i: int, pass: int, inc: int, iline: int) returns (line: int, pass': int, inc': int, iline': int)
    requires 0 <= i < |rows|
    requires 1 <= pass <= 4 && inc == PassStep(pass)
    requires rows[i..] == Run(iline, inc, h) + Passes(pass + 1, h)
    ensures line == rows[i]
    ensures 1 <= pass' <= 4 && inc' == PassStep(pass')
    ensures rows[i + 1..] == Run(iline', inc', h) + Passes(pass' + 1, h)
  {
    pass', inc', iline' := pass, inc, iline;
    while iline' >= h
      invariant 1 <= pass' <= 4 && inc' == PassStep(pass')
      invariant rows[i..] == Run(iline', inc', h) + Passes(pass' + 1, h)
      decreases 4 - pass'
    {
      PassSwitch(h, rows[i..], pass', inc', iline');
      pass' := pass' + 1;
      var next := SwitchPass(pass', inc', iline');
      iline', inc' := next.0, next.1;
    }
    TakeRow(rows[i..], h, inc', iline', Passes(pass' + 1, h));
    assert rows[i + 1..] == rows[i..][1..];
    line := iline';
    iline' := iline' + inc';
  }

  /** One row of the rows loop of `setPixels`: its line, found through
      the pass bookkeeping when the image is interlaced, and the row drawn
      there unless that line lies below the frame. */
  method DrawImageRow(dest: array<int>, px: array<Byte>, act: array<int>, r: Rect, interlace: bool, width: int, height: int,
                      ghost d: seq<int>, ghost order: seq<int>, i: int, pass: int, inc: int, iline: int)
    returns (o: Result<(), string>, pass': int, inc': int, iline': int)
    requires act.Length == 256 && dest != act && 0 <= i < r.h
    requires order == RowOrder(r.h, interlace)
    requires 1 <= pass <= 4 && inc == PassStep(pass)
    requires interlace ==> order[i..] == Run(iline, inc, r.h) + Passes(pass + 1, r.h)
    requires Compose(d, px[..], act[..], r, interlace, width, height, i) == Ok(dest[..])
    modifies dest
    ensures 1 <= pass' <= 4 && inc' == PassStep(pass')
    ensures interlace ==> order[i + 1..] == Run(iline', inc', r.h) + Passes(pass' + 1, r.h)
    ensures o.Ok? ==> Compose(d, px[..], act[..], r, interlace, width, height, i + 1) == Ok(dest[..])
    ensures o.Err? ==> o.error == "ArrayIndexOutOfBoundsException" && Compose(d, px[..], act[..], r, interlace, width, height, i + 1).Err?
  {
    o := Ok(());
    var line;
    line, pass', inc', iline' := RowLine(r, interlace, order, i, pass, inc, iline);
    ComposeNext(d, px[..], act[..], r, interlace, width, height, i, dest[..]);
    if line < height {
      o := DrawRow(dest, px, act, RowStart(r, width, line), RowLimit(r, width, line), RowSource(r, i));
    }
  }

  /** The line of row `i`: the row number itself, or the next line of the
      interlace passes, moved down by the image's top. */
  method RowLine(r: Rect, interlace: bool, ghost order: seq<int>, i: int, pass: int, inc: int, iline: int)
    returns (line: int, pass': int, inc': int, iline': int)
    requires 0 <= i < r.h && order == RowOrder(r.h, interlace)
    requires 1 <= pass <= 4 && inc == PassStep(pass)
    requires interlace ==> order[i..] == Run(iline, inc, r.h) + Passes(pass + 1, r.h)
    ensures line == LineOf(r, interlace, i)
    ensures 1 <= pass' <= 4 && inc' == PassStep(pass')
    ensures interlace ==> order[i + 1..] == Run(iline', inc', r.h) + Passes(pass' + 1, r.h)
  {
    pass', inc', iline' := pass, inc, iline;
    line := i;
    if interlace {
      assert order == InterlacedRows(r.h);
      line, pass', inc', iline' := NextInterlacedLine(order, r.h, i, pass, inc, iline);
    }
    assert line == order[i];
    line := Int32(line + r.y);
  }

  /** The rows loop of `setPixels`: each row of the image, on its line,
      clipped at the frame's right edge; a row whose line lies below the
      frame is skipped. */
  method DrawRows(dest: array<int>, px: array<Byte>, act: array<int>, r: Rect, interlace: bool, width: int, height: int) returns (o: Result<(), string>)
    requires act.Length == 256 && dest != act && 0 <= r.h
    modifies dest
    ensures o.Ok? ==> Compose(old(dest[..]), px[..], act[..], r, interlace, width, height, r.h) == Ok(dest[..])
    ensures o.Err? ==> o.error == "ArrayIndexOutOfBoundsException" && Compose(old(dest[..]), px[..], act[..], r, interlace, width, height, r.h).Err?
  {
    ghost var d := dest[..];
    ghost var order := RowOrder(r.h, interlace);
    o := Ok(());
    var pass, inc, iline := 1, 8, 0;
    var i := 0;
    while i < r.h && o.Ok?
      invariant 0 <= i <= r.h
      invariant 1 <= pass <= 4 && inc == PassStep(pass)
      invariant interlace ==> order[i..] == Run(iline, inc, r.h) + Passes(pass + 1, r.h)
      invariant o.Ok? ==> Compose(d, px[..], act[..], r, interlace, width, height, i) == Ok(dest[..])
      invariant o.Err? ==> o.error == "ArrayIndexOutOfBoundsException" && Compose(d, px[..], act[..], r, interlace, width, height, i).Err?
    {
      o, pass, inc, iline := DrawImageRow(dest, px, act, r, interlace, width, height, d, order, i, pass, inc, iline);
      i := i + 1;
    }
    if o.Err? {
      ComposeErrStays(d, px[..], act[..], r, interlace, width, height, i, r.h);
    }
  }

  /** The frame `setPixels` starts from, `width * height` pixels: blank;
      or, when the last disposal method keeps or restores a frame
      (`lastDispose > 0`) and there is one, the pixmap `prev` read back,
      with the previous image's rectangle `lr` then cleared to `c` when the
      method is 2 (restore to background); or the exception thrown on the
      way. */
  function Background(width: int, height: int, lastDispose: int, prev: Option<Pixmap>, lr: Rect, c: int): (e: Result<seq<int>, string>)
    requires 0 <= width * height
    ensures e.Ok? ==> |e.value| == width * height
  {
    var blank := seq(width * height, _ => 0);
    if lastDispose <= 0 || prev.None? then Ok(blank)
    else if width > 0 && height > 0 && |prev.value.rgba| < width * height then Err("IndexOutOfBoundsException")
    else
      var restored := Restored(blank, prev.value, width, height);
      if lastDispose != 2 then Ok(restored)
      else if RectFits(width * height, lr, width) then Ok(FilledRect(restored, lr, width, c, Rows(lr.h)))
      else Err("ArrayIndexOutOfBoundsException")
  }

  /** The frame `setPixels` composes: the image's rows drawn over the
      background. */
  function ComposeFrame(width: int, height: int, lastDispose: int, prev: Option<Pixmap>, lr: Rect, c: int,
                        px: seq<Byte>, act: seq<int>, r: Rect, interlace: bool): (e: Result<seq<int>, string>)
    requires 0 <= width * height
    ensures e.Ok? ==> |e.value| == width * height
  {
    var start := Background(width, height, lastDispose, prev, lr, c);
    if start.Err? || r.h < 0 then start
    else Compose(start.value, px, act, r, interlace, width, height, r.h)
  }

  /** The start of `setPixels`: a new `width * height` array holding the
      background. */
  method StartFrame(width: int, height: int, lastDispose: int, prev: Option<Pixmap>, lr: Rect, c: int)
    returns (o: Result<array<int>, string>)
    requires 0 <= width * height
    ensures o.Ok? ==> fresh(o.value)
    ensures Background(width, height, lastDispose, prev, lr, c).Err? ==> o == Err(Background(width, height, lastDispose, prev, lr, c).error)
    ensures Background(width, height, lastDispose, prev, lr, c).Ok? ==> o.Ok? && o.value[..] == Background(width, height, lastDispose, prev, lr, c).value
  {
    var dest := new int[width * height](_ => 0);
    assert dest[..] == seq(width * height, _ => 0);
    if lastDispose > 0 && prev.Some? {
      var r := CopyPixels(prev.value, dest, width, height);
      if r.Err? {
        return Err(r.error);
      }
      if lastDispose == 2 {
        var f := FillRect(dest, lr, width, c);
        if f.Err? {
          return Err(f.error);
        }
      }
    }
    o := Ok(dest);
  }

  /** Disposal method 1 (leave in place) keeps the previous frame: read
      back from its pixmap, its pixels are the ones composed. */
  lemma KeepRestoresPrevious(data: seq<int>, width: int, height: int, lr: Rect, c: int)
    requires width > 0 && height > 0 && |data| == width * height && AllInt32(data)
    ensures Background(width, height, 1, Some(PixmapOf(data, width, height)), lr, c) == Ok(data)
  {
    PixmapRoundTrip(data, width, height);
    var blank := seq(width * height, _ => 0);
    var restored := Restored(blank, PixmapOf(data, width, height), width, height);
    assert restored == data;
  }

  /** Pixel `j` lies on row `i` of rectangle `r`. */
  predicate InRectRow(r: Rect, width: int, i: int, j: int) {
    RectRowStart(r, width, i) <= j < RectRowEnd(r, width, i)
  }

  /** After its first `rows` rows are cleared, a pixel of the rectangle
      holds `c` and every other pixel is unchanged. */
  lemma {:induction false} FilledRectAt(d: seq<int>, r: Rect, width: int, c: int, rows: nat, j: int)
    requires 0 <= j < |d|
    ensures FilledRect(d, r, width, c, rows)[j] == if exists i :: 0 <= i < rows && InRectRow(r, width, i, j) then c else d[j]
  {
    if rows > 0 {
      FilledRectAt(d, r, width, c, rows - 1, j);
      if InRectRow(r, width, rows - 1, j) {
        assert FilledRect(d, r, width, c, rows)[j] == c;
      }
    }
  }

  /** Row `i` of the image paints pixel `j` with colour `v`: the row lies
      within the frame's height, covers `j`, and maps it to a colour that
      is not transparent. */
  predicate Painted(px: seq<Byte>, act: seq<int>, r: Rect, interlace: bool, width: int, height: int, i: int, j: int, v: int) {
    0 <= i < r.h &&
    var line := LineOf(r, interlace, i);
    var dx := RowStart(r, width, line);
    line < height && dx <= j < RowLimit(r, width, line) && v != 0 && v == ColorOf(px, act, j - dx + RowSource(r, i))
  }

  /** Drawing the image changes a pixel only by painting it: every pixel
      that differs from the background holds a non-transparent colour some
      row of the image maps to it. */
  lemma {:induction false} ComposePainted(d: seq<int>, px: seq<Byte>, act: seq<int>, r: Rect, interlace: bool, width: int, height: int, n: nat, j: int)
    requires n <= r.h && 0 <= j < |d|
    ensures var e := Compose(d, px, act, r, interlace, width, height, n);
      e.Ok? ==> e.value[j] == d[j] || exists i :: 0 <= i < n && Painted(px, act, r, interlace, width, height, i, j, e.value[j])
  {
    if n > 0 {
      ComposePainted(d, px, act, r, interlace, width, height, n - 1, j);
      var prev := Compose(d, px, act, r, interlace, width, height, n - 1);
      if prev.Err? {
        ComposeErrStays(d, px, act, r, interlace, width, height, n - 1, n);
      } else {
        ComposeNext(d, px, act, r, interlace, width, height, n - 1, prev.value);
        var e := DrawLine(prev.value, px, act, r, interlace, width, height, n - 1);
        assert Compose(d, px, act, r, interlace, width, height, n) == e;
        if e.Ok? && e.value[j] != prev.value[j] {
          PaintedByRow(prev.value, e.value, px, act, r, interlace, width, height, n - 1, j);
        }
      }
    }
  }

  /** A pixel the drawing of row `i` changes is painted by that row. */
  lemma PaintedByRow(d: seq<int>, e: seq<int>, px: seq<Byte>, act: seq<int>, r: Rect, interlace: bool, width: int, height: int, i: int, j: int)
    requires 0 <= i < r.h && 0 <= j < |d|
    requires DrawLine(d, px, act, r, interlace, width, height, i) == Ok(e) && e[j] != d[j]
    ensures Painted(px, act, r, interlace, width, height, i, j, e[j])
  {
  }
}
