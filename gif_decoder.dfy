/** The animated-GIF decoder: a reader over a stream of bytes that parses
    the header, the logical screen descriptor and the colour tables, walks
    the content blocks, decodes each image's LZW data and composes the
    frames. The stream is a sequence of bytes and a cursor; exceptions
    that escape `read` are the `Thrown` outcome. */
module GifDecoding {
  import opened Wrappers
  import opened GifFormat
  import opened Interlace
  import opened GifFrames

  /** How a step of the decoder ends: normally, or with a Java exception
      that propagates out of `read`. */
  datatype Outcome = Pass | Thrown(exception: string) {
    predicate IsFailure() {
      Thrown?
    }

    function PropagateFailure(): Outcome
      requires Thrown?
    {
      this
    }
  }

  /** A frame: its pixmap and its delay in milliseconds. */
  datatype GifFrame = GifFrame(image: Pixmap, delay: int)

  /** The logical screen descriptor's fields. */
  datatype Screen = Screen(width: int, height: int, gctFlag: bool, gctSize: int, bgIndex: int, pixelAspect: int)

  /** The screen descriptor whose seven bytes start at `p`: width and
      height as shorts, the packed fields, the background colour index and
      the pixel aspect ratio. */
  function ScreenAt(data: seq<Byte>, p: nat): Screen {
    Screen(
      ShortOf(ByteAt(data, p), ByteAt(data, p + 1)),
      ShortOf(ByteAt(data, p + 2), ByteAt(data, p + 3)),
      TableFlag(ByteAt(data, p + 4)),
      GctSize(ByteAt(data, p + 4)),
      ByteAt(data, p + 5),
      ByteAt(data, p + 6))
  }

  /** Whether the six bytes of signature and version at `p` begin "GIF". */
  predicate SignatureAt(data: seq<Byte>, p: nat) {
    GifSignature(ByteAt(data, p), ByteAt(data, p + 1), ByteAt(data, p + 2))
  }

  /** The image descriptor's rectangle whose eight bytes start at `p`:
      left, top, width and height as shorts. */
  function ImageRect(data: seq<Byte>, p: nat): Rect {
    Rect(
      ShortOf(ByteAt(data, p), ByteAt(data, p + 1)),
      ShortOf(ByteAt(data, p + 2), ByteAt(data, p + 3)),
      ShortOf(ByteAt(data, p + 4), ByteAt(data, p + 5)),
      ShortOf(ByteAt(data, p + 6), ByteAt(data, p + 7)))
  }

  /** How many bytes of the stream are left with `p` of them requested. */
  function Avail(input: seq<Byte>, p: nat): (n: nat)
    ensures n <= |input|
    ensures p <= |input| ==> n == |input| - p
  {
    if p < |input| then |input| - p else 0
  }

  /** Where the data sub-blocks from `p` end, past their zero-length
      terminator, and whether the stream ends inside one of them. A -1
      size (the end of the stream) ends the chain as a terminator does. */
  function SubBlocks(input: seq<Byte>, p: nat): (r: (nat, bool))
    ensures p < r.0
    decreases |input| - p
  {
    var size := ByteAt(input, p);
    if size <= 0 then (p + 1, false)
    else if p + 1 + size > |input| then (p + 1 + Avail(input, p + 1), true)
    else SubBlocks(input, p + 1 + size)
  }

  /** How many bytes `readBlock` stores for the block at `p`: its size
      byte's worth, or as many as the stream still holds. */
  function BlockLength(data: seq<Byte>, p: nat): (n: nat)
    ensures n <= Avail(data, p + 1) && n < 256
  {
    var size := ByteAt(data, p);
    if size <= 0 then 0 else Min(size, Avail(data, p + 1))
  }

  /** The input stream `read(InputStream)` is given: its bytes and how many
      of them have been asked for. Past the end every read yields -1, so a
      count beyond the stream's length reads as its end. */
  class ByteStream {
    const data: seq<Byte>
    var pos: nat

    constructor(data: seq<Byte>)
      ensures this.data == data && pos == 0
    {
      this.data := data;
      pos := 0;
    }

    /** `read()`: the next byte, or -1 at the end of the stream. */
    method Read() returns (b: int)
      modifies this
      ensures b == ByteAt(data, old(pos)) && pos == old(pos) + 1
    {
      b := if pos < |data| then data[pos] else -1;
      pos := pos + 1;
    }

    /** `read(buffer)`: up to `n` bytes, as many as the stream still holds;
        at the end of the stream the result is -1. */
    method ReadInto(n: nat) returns (count: int, bytes: seq<Byte>)
      requires n > 0
      modifies this
      ensures count == if Avail(data, old(pos)) == 0 then -1 else Min(n, Avail(data, old(pos)))
      ensures pos == old(pos) + (if count < 0 then 0 else count)
      ensures count > 0 ==> old(pos) + count <= |data| && bytes == data[old(pos)..pos]
    {
      if pos >= |data| {
        return -1, [];
      }
      count := Min(n, |data| - pos);
      bytes := data[pos..pos + count];
      pos := pos + count;
    }
  }

  function Min(a: int, b: int): int {
    if a <= b then a else b
  }

  /** The colour table `table` with the transparent colour's entry put
      back to `save`, when the frame had one. */
  function Restore(table: seq<int>, transparency: bool, transIndex: int, save: int): (r: seq<int>)
    requires transparency ==> 0 <= transIndex < |table|
    ensures |r| == |table|
    ensures transparency ==> r[transIndex] == save
    ensures forall k :: 0 <= k < |table| && !(transparency && k == transIndex) ==> r[k] == table[k]
  {
    if transparency then table[transIndex := save] else table
  }

  /** `getFrame(n)` over `frames` with `count` frames counted: none
      before any, otherwise the frame at Java's remainder of `n` by
      `count`, or the exception `ArrayList.get` throws outside the list. */
  function FrameAt(frames: seq<GifFrame>, count: int, n: int): Result<Option<Pixmap>, string> {
    if count <= 0 then Ok(None)
    else
      var k := Rem(n, count);
      if 0 <= k < |frames| then Ok(Some(frames[k].image)) else Err("ArrayIndexOutOfBoundsException")
  }

  /** The pixmap `setPixels` starts from with `count` frames counted:
      with disposal method 3 (restore to previous), the frame before the
      last one, or none while fewer than three frames have been counted;
      otherwise the last frame. */
  function PreviousOf(lastDispose: int, lastPixmap: Option<Pixmap>, frames: seq<GifFrame>, count: int): Result<Option<Pixmap>, string> {
    if lastDispose == 3 then
      var n := Int32(count - 2);
      if n > 0 then FrameAt(frames, count, n - 1) else Ok(None)
    else Ok(lastPixmap)
  }

  /** What a frame is drawn over: the logical screen's size, the frame
      count once it is counted, the frames kept, the last frame's disposal
      method, pixmap and rectangle, and the colour its rectangle is
      cleared to. */
  datatype Backdrop = Backdrop(width: int, height: int, count: int, frames: seq<GifFrame>, dispose: int,
                               pixmap: Option<Pixmap>, rect: Rect, color: int)

  /** The image `readBitmap` keeps for a frame drawn over `b`: a pixmap
      whose pixel count does not fit in a Java `int` cannot be allocated, a
      negative size throws, and otherwise `setPixels` composes the decoded
      pixels `px` through the table `table` inside the rectangle `r` over
      the background the last disposal method leaves. */
  function ComposedImage(b: Backdrop, px: seq<Byte>, table: seq<int>, r: Rect, interlaced: bool): Result<Pixmap, string> {
    if !IsInt32(b.width * b.height) then Err("GdxRuntimeException")
    else if b.width * b.height < 0 then Err("NegativeArraySizeException")
    else
      var prev := PreviousOf(b.dispose, b.pixmap, b.frames, b.count);
      if prev.Err? then Err(prev.error)
      else
        var e := ComposeFrame(b.width, b.height, b.dispose, prev.value, b.rect, b.color, px, table, r, interlaced);
        if e.Err? then Err(e.error) else Ok(PixmapOf(e.value, b.width, b.height))
  }

  class GifDecoder {
    /** The stream being read; none before `read(InputStream)`. */
    var stream: ByteStream?
    var status: int
    /** The logical screen. */
    var width: int
    var height: int
    var gctFlag: bool
    var gctSize: int
    var loopCount: int
    var gct: array?<int>
    var lct: array?<int>
    var act: array?<int>
    var bgIndex: int
    var bgColor: int
    var lastBgColor: int
    var pixelAspect: int
    /** The current image descriptor. */
    var lctFlag: bool
    var interlace: bool
    var lctSize: int
    var ix: int
    var iy: int
    var iw: int
    var ih: int
    /** The previous image's rectangle. */
    var lrx: int
    var lry: int
    var lrw: int
    var lrh: int
    var image: Option<Pixmap>
    var lastPixmap: Option<Pixmap>
    const block: array<Byte>
    var blockSize: int
    /** The graphic control extension in force. */
    var dispose: int
    var lastDispose: int
    var transparency: bool
    var delay: int
    var transIndex: int
    /** The LZW decoder's working arrays, allocated on first use. */
    var prefix: array?<Short>
    var suffix: array?<Byte>
    var pixelStack: array?<Byte>
    var pixels: array?<Byte>
    var frames: seq<GifFrame>
    var frameCount: int

    /** The sizes of the block buffer and of the LZW arrays once allocated,
        and no two byte arrays the same. */
    ghost predicate Buffers()
      reads this`prefix, this`suffix, this`pixelStack, this`pixels
    {
      && block.Length == 256
      && (prefix != null ==> prefix.Length == MaxStackSize)
      && (suffix != null ==> suffix.Length == MaxStackSize)
      && (pixelStack != null ==> pixelStack.Length == MaxStackSize + 1)
      && block != suffix && block != pixelStack && block != pixels
      && (suffix != null ==> suffix != pixelStack && suffix != pixels)
      && (pixelStack != null ==> pixelStack != pixels)
    }

    /** The LZW arrays, allocated. */
    ghost predicate LzwArrays()
      reads this`prefix, this`suffix, this`pixelStack, this`pixels
    {
      Buffers() && prefix != null && suffix != null && pixelStack != null && pixels != null
    }

    /** The colour tables hold 256 entries. */
    ghost predicate Tables()
      reads this`gct, this`lct, this`act
    {
      && (gct != null ==> gct.Length == 256)
      && (lct != null ==> lct.Length == 256)
      && (act != null ==> act.Length == 256)
    }

    /** The colour tables and the decoding buffers have their sizes. */
    ghost predicate Arrays()
      reads this`gct, this`lct, this`act, this`prefix, this`suffix, this`pixelStack, this`pixels
    {
      && Tables() && Buffers()
    }

    /** Between frames, the count is the number of frames kept. */
    ghost predicate Valid()
      reads this`gct, this`lct, this`act, this`prefix, this`suffix, this`pixelStack, this`pixels, this`frameCount, this`frames
    {
      Arrays() && frameCount == |frames|
    }

    /** The byte `k` places on in the stream: what the `k + 1`-th `read()`
        from here yields. */
    ghost function At(k: nat): int
      requires stream != null
      reads this`stream, stream
    {
      ByteAt(stream.data, stream.pos + k)
    }

    /** The screen descriptor as the decoder holds it. */
    ghost function ScreenFields(): Screen
      reads this`width, this`height, this`gctFlag, this`gctSize, this`bgIndex, this`pixelAspect
    {
      Screen(width, height, gctFlag, gctSize, bgIndex, pixelAspect)
    }

    /** `new GifDecoder()`: Java's field defaults and initialisers. */
    constructor()
      ensures Valid() && fresh(block)
      ensures stream == null && status == StatusOk && loopCount == 1 && blockSize == 0
      ensures dispose == 0 && lastDispose == 0 && !transparency && delay == 0
      ensures gct == null && lct == null && act == null && pixels == null
      ensures image.None? && lastPixmap.None? && frames == [] && frameCount == 0
    {
      stream, status := null, StatusOk;
      width, height, gctFlag, gctSize, loopCount := 0, 0, false, 0, 1;
      gct, lct, act := null, null, null;
      bgIndex, bgColor, lastBgColor, pixelAspect := 0, 0, 0, 0;
      lctFlag, interlace, lctSize := false, false, 0;
      ix, iy, iw, ih, lrx, lry, lrw, lrh := 0, 0, 0, 0, 0, 0, 0, 0;
      image, lastPixmap := None, None;
      block := new Byte[256](_ => 0);
      blockSize := 0;
      dispose, lastDispose, transparency, delay, transIndex := 0, 0, false, 0, 0;
      prefix, suffix, pixelStack, pixels := null, null, null, null;
      frames, frameCount := [], 0;
    }

    /** `readShort`: the next two bytes, least significant first. */
    method ReadShort() returns (v: int)
      requires stream != null
      modifies stream
      ensures v == ShortOf(old(At(0)), old(At(1)))
      ensures stream.pos == old(stream.pos) + 2
    {
      var lo := stream.Read();
      var hi := stream.Read();
      v := ShortOf(lo, hi);
    }

    /** `readLSD`: the logical screen descriptor's seven bytes. */
    method ReadLSD()
      requires stream != null
      modifies stream, this`width, this`height, this`gctFlag, this`gctSize, this`bgIndex, this`pixelAspect
      ensures stream.pos == old(stream.pos) + 7
      ensures ScreenFields() == ScreenAt(stream.data, old(stream.pos))
    {
      width := ReadShort();
      height := ReadShort();
      var packed := stream.Read();
      bgIndex := stream.Read();
      pixelAspect := stream.Read();
      gctFlag := TableFlag(packed);
      gctSize := GctSize(packed);
    }

    /** `readColorTable`: one read of `3 * ncolors` bytes makes a table of
        256 entries; a read that comes back short leaves a format error and
        no table. */
    method ReadColorTable(ncolors: int) returns (tab: array?<int>)
      requires stream != null && 2 <= ncolors <= 256
      modifies stream, this`status
      ensures Avail(stream.data, old(stream.pos)) >= 3 * ncolors ==>
        && tab != null && fresh(tab) && status == old(status)
        && stream.pos == old(stream.pos) + 3 * ncolors
        && tab[..] == ColorTable(stream.data[old(stream.pos)..stream.pos], ncolors)
      ensures Avail(stream.data, old(stream.pos)) < 3 * ncolors ==>
        && tab == null && status == StatusFormatError
        && stream.pos == old(stream.pos) + Avail(stream.data, old(stream.pos))
    {
      var nbytes := 3 * ncolors;
      tab := null;
      var n, c := stream.ReadInto(nbytes);
      if n < nbytes {
        status := StatusFormatError;
      } else {
        tab := new int[256](_ => 0);
        var i, j := 0, 0;
        while i < ncolors
          modifies tab
          invariant 0 <= i <= ncolors && j == 3 * i
          invariant forall k :: 0 <= k < i ==> tab[k] == Argb(c[3 * k], c[3 * k + 1], c[3 * k + 2])
          invariant forall k :: i <= k < 256 ==> tab[k] == 0
        {
          var r, g, b := c[j], c[j + 1], c[j + 2];
          j := j + 3;
          tab[i] := Argb(r, g, b);
          i := i + 1;
        }
        assert tab[..] == ColorTable(c, ncolors);
      }
    }

    /** The six bytes of signature and version; the signature must be
        "GIF". */
    method ReadSignature() returns (ok: bool)
      requires stream != null
      modifies stream
      ensures stream.pos == old(stream.pos) + 6
      ensures ok == SignatureAt(stream.data, old(stream.pos))
    {
      var b0 := stream.Read();
      var b1 := stream.Read();
      var b2 := stream.Read();
      var b3 := stream.Read();
      var b4 := stream.Read();
      var b5 := stream.Read();
      ok := GifSignature(b0, b1, b2);
    }

    /** The global colour table of `readHeader` and the background colour
        looked up in it; a table the stream is too short for is missing, and
        the lookup throws. */
    method ReadGlobalTable() returns (o: Outcome)
      requires stream != null && 2 <= gctSize <= 256
      requires IsRead(bgIndex) && (bgIndex == -1 ==> Avail(stream.data, stream.pos) == 0)
      modifies stream, this`status, this`gct, this`bgColor
      ensures Avail(stream.data, old(stream.pos)) >= 3 * gctSize ==>
        && o == Pass && status == old(status) && gct != null && fresh(gct)
        && gct[..] == ColorTable(stream.data[old(stream.pos)..old(stream.pos) + 3 * gctSize], gctSize)
        && 0 <= bgIndex < 256 && bgColor == gct[bgIndex]
      ensures Avail(stream.data, old(stream.pos)) < 3 * gctSize ==>
        o == Thrown("NullPointerException") && status == StatusFormatError && gct == null
    {
      gct := ReadColorTable(gctSize);
      o := Pass;
      if gct == null {
        o := Thrown("NullPointerException");
      } else {
        bgColor := gct[bgIndex];
      }
    }

    /** `readHeader`: the signature, the screen descriptor and, when its
        flag is set and nothing has gone wrong, the global colour table and
        the background colour. */
    method ReadHeader() returns (o: Outcome)
      requires stream != null && (gct != null ==> gct.Length == 256)
      modifies stream, this`status, this`width, this`height, this`gctFlag, this`gctSize, this`bgIndex, this`pixelAspect, this`gct, this`bgColor
      ensures gct != null ==> gct.Length == 256
      ensures status == old(status) || status == StatusFormatError
      ensures !SignatureAt(stream.data, old(stream.pos)) ==>
        o == Pass && status == StatusFormatError && stream.pos == old(stream.pos) + 6 && gct == old(gct)
      ensures SignatureAt(stream.data, old(stream.pos)) ==>
        ScreenFields() == ScreenAt(stream.data, old(stream.pos) + 6)
      ensures SignatureAt(stream.data, old(stream.pos)) && !(gctFlag && old(status) == StatusOk) ==>
        o == Pass && stream.pos == old(stream.pos) + 13 && gct == old(gct) && status == old(status)
      ensures SignatureAt(stream.data, old(stream.pos)) && gctFlag && old(status) == StatusOk ==>
        var tableAt := old(stream.pos) + 13;
        if Avail(stream.data, tableAt) >= 3 * gctSize then
          && o == Pass && status == StatusOk && gct != null && fresh(gct)
          && gct[..] == ColorTable(stream.data[tableAt..tableAt + 3 * gctSize], gctSize)
          && 0 <= bgIndex < 256 && bgColor == gct[bgIndex]
        else
          o == Thrown("NullPointerException") && status == StatusFormatError && gct == null
    {
      o := Pass;
      var ok := ReadSignature();
      if !ok {
        status := StatusFormatError;
      } else {
        ghost var packed := At(4);
        ReadLSD();
        if gctFlag && status == StatusOk {
          GctSizeBitwise(packed);
          o := ReadGlobalTable();
        }
      }
    }

    /** `readGraphicControlExt`: the block size, the packed fields (the
        disposal method and the transparency flag), the delay in hundredths
        of a second, scaled to milliseconds, the transparent colour index
        and the terminator. */
    method ReadGraphicControlExt()
      requires stream != null
      modifies stream, this`dispose, this`transparency, this`delay, this`transIndex
      ensures stream.pos == old(stream.pos) + 6
      ensures dispose == DisposalMethod(old(At(1))) && transparency == TransparencyFlag(old(At(1)))
      ensures delay == 10 * ShortOf(old(At(2)), old(At(3))) && transIndex == old(At(4))
    {
      var size := stream.Read();
      var packed := stream.Read();
      dispose := DisposalMethod(packed);
      transparency := TransparencyFlag(packed);
      var hundredths := ReadShort();
      delay := hundredths * 10;
      transIndex := stream.Read();
      var terminator := stream.Read();
    }

    /** `readBlock`: a size byte, then reads of the stream into `block`
        until it holds that many bytes or the stream ends; a block the
        stream ends inside leaves a format error. */
    method ReadBlock() returns (n: int)
      requires stream != null && block.Length == 256
      modifies stream, this`blockSize, this`status, block
      ensures blockSize == old(At(0))
      ensures n == BlockLength(stream.data, old(stream.pos))
      ensures stream.pos == old(stream.pos) + 1 + n
      ensures n > 0 ==> stream.pos <= |stream.data| && block[..n] == stream.data[old(stream.pos) + 1..stream.pos]
      ensures block[n..] == old(block[n..])
      ensures status == if 0 < blockSize && n < blockSize then StatusFormatError else old(status)
    {
      ghost var start := stream.pos + 1;
      blockSize := stream.Read();
      n := 0;
      if blockSize > 0 {
        while n < blockSize
          modifies stream, block
          invariant stream.pos == start + n && start <= |stream.data|
          invariant 0 <= n <= blockSize && n <= Avail(stream.data, start)
          invariant n == 0 || n == Min(blockSize, Avail(stream.data, start))
          invariant block[..n] == stream.data[start..stream.pos]
          invariant block[n..] == old(block[n..])
          decreases blockSize - n
        {
          var count, bytes := stream.ReadInto(blockSize - n);
          if count == -1 {
            break;
          }
          forall k | 0 <= k < count {
            block[n + k] := bytes[k];
          }
          n := n + count;
        }
        if n < blockSize {
          status := StatusFormatError;
        }
      }
    }

    /** `skip`: data sub-blocks up to and including the terminator. */
    method Skip()
      requires stream != null && block.Length == 256
      modifies stream, this`blockSize, this`status, block
      ensures old(stream.pos) < stream.pos
      ensures status == old(status) || status == StatusFormatError
      ensures old(status) == StatusOk ==>
        stream.pos == SubBlocks(stream.data, old(stream.pos)).0 && (status == StatusOk <==> !SubBlocks(stream.data, old(stream.pos)).1)
    {
      var n := ReadBlock();
      while blockSize > 0 && status == StatusOk
        invariant old(stream.pos) < stream.pos
        invariant status == old(status) || status == StatusFormatError
        invariant old(status) == StatusOk ==>
          if blockSize > 0 && status == StatusOk then SubBlocks(stream.data, stream.pos) == SubBlocks(stream.data, old(stream.pos))
          else stream.pos == SubBlocks(stream.data, old(stream.pos)).0 && (status == StatusOk <==> !SubBlocks(stream.data, old(stream.pos)).1)
        decreases Avail(stream.data, stream.pos) + (if blockSize > 0 && status == StatusOk then 1 else 0)
      {
        n := ReadBlock();
      }
    }

    /** `readNetscapeExt`: the sub-blocks of the NETSCAPE2.0 application
        extension; one whose first byte is 1 carries the loop count, a
        little-endian short. */
    method ReadNetscapeExt()
      requires stream != null && block.Length == 256
      modifies stream, this`blockSize, this`status, this`loopCount, block
      ensures old(stream.pos) < stream.pos
      ensures status == old(status) || status == StatusFormatError
      ensures old(status) == StatusOk ==>
        stream.pos == SubBlocks(stream.data, old(stream.pos)).0 && (status == StatusOk <==> !SubBlocks(stream.data, old(stream.pos)).1)
      ensures loopCount == old(loopCount) || 0 <= loopCount < 65536
    {
      var more := true;
      ghost var first := true;
      while more
        invariant first ==> more && stream.pos == old(stream.pos) && status == old(status)
        invariant !first ==> old(stream.pos) < stream.pos
        invariant status == old(status) || status == StatusFormatError
        invariant !first && old(status) == StatusOk ==>
          if more then status == StatusOk && SubBlocks(stream.data, stream.pos) == SubBlocks(stream.data, old(stream.pos))
          else stream.pos == SubBlocks(stream.data, old(stream.pos)).0 && (status == StatusOk <==> !SubBlocks(stream.data, old(stream.pos)).1)
        invariant loopCount == old(loopCount) || 0 <= loopCount < 65536
        decreases Avail(stream.data, stream.pos) + (if more then 1 else 0)
      {
        var n := ReadBlock();
        if block[0] == 1 {
          ShortOfBytes(block[1], block[2]);
          loopCount := ShortOf(block[1], block[2]);
        }
        more := blockSize > 0 && status == StatusOk;
        first := false;
      }
    }

    /** The allocations of `decodeBitmapData`: a pixel array for `npix`
        pixels unless the one kept is long enough (a new array of negative
        size throws), and the code table and the pixel stack on first use. */
    method AllocateBuffers(npix: int) returns (o: Outcome)
      requires Buffers()
      modifies this`pixels, this`prefix, this`suffix, this`pixelStack
      ensures Buffers()
      ensures o == Pass || o == Thrown("NegativeArraySizeException")
      ensures o.Thrown? <==> npix < 0 && old(pixels) == null
      ensures o == Pass ==> LzwArrays() && pixels.Length >= npix
      ensures o == Pass && old(pixels) != null && old(pixels).Length >= npix ==> pixels == old(pixels)
      ensures pixels != old(pixels) ==> fresh(pixels) && forall k :: 0 <= k < pixels.Length ==> pixels[k] == 0
      ensures prefix == old(prefix) || fresh(prefix)
      ensures suffix == old(suffix) || fresh(suffix)
      ensures pixelStack == old(pixelStack) || fresh(pixelStack)
    {
      o := Pass;
      if pixels == null || pixels.Length < npix {
        if npix < 0 {
          return Thrown("NegativeArraySizeException");
        }
        pixels := new Byte[npix](_ => 0);
      }
      if prefix == null {
        prefix := new Short[MaxStackSize](_ => 0);
      }
      if suffix == null {
        suffix := new Byte[MaxStackSize](_ => 0);
      }
      if pixelStack == null {
        pixelStack := new Byte[MaxStackSize + 1](_ => 0);
      }
    }

    /** The roots of the code table: each code below `clear` stands for
        itself as a byte. A `clear` beyond the table throws once the table
        is full. */
    method InitTable(clear: int) returns (o: Outcome)
      requires LzwArrays()
      modifies prefix, suffix
      ensures o == Pass || o == Thrown("ArrayIndexOutOfBoundsException")
      ensures o == Pass <==> clear <= MaxStackSize
      ensures forall c :: 0 <= c < MaxStackSize && c < clear ==> prefix[c] == 0 && suffix[c] == c % 256
      ensures forall c :: 0 <= c < MaxStackSize && clear <= c ==> prefix[c] == old(prefix[c]) && suffix[c] == old(suffix[c])
    {
      o := Pass;
      var code := 0;
      while code < clear
        invariant 0 <= code <= MaxStackSize && (code < clear || code == clear || clear < 0)
        invariant clear < 0 ==> code == 0
        invariant forall c :: 0 <= c < code ==> prefix[c] == 0 && suffix[c] == c % 256
        invariant forall c :: code <= c < MaxStackSize ==> prefix[c] == old(prefix[c]) && suffix[c] == old(suffix[c])
      {
        if code == MaxStackSize {
          o := Thrown("ArrayIndexOutOfBoundsException");
          break;
        }
        prefix[code] := 0;
        suffix[code] := code % 256;
        code := code + 1;
      }
    }

    /** Refills `datum` with the next data byte above its `bits` bits,
        reading a new data sub-block when the current one is used up;
        `more` is false when the next block is empty or the stream has
        ended. */
    method LoadByte(st: Lzw, ghost dataSize: int, ghost clear: int) returns (st': Lzw, more: bool)
      requires stream != null && block.Length == 256 && Inv(st, dataSize, clear) && st.bits < st.codeSize
      modifies stream, this`blockSize, this`status, block
      ensures Inv(st', dataSize, clear)
      ensures st' == st.(datum := st'.datum, bits := st'.bits, bi := st'.bi, count := st'.count)
      ensures more ==> st'.bits == st.bits + 8
      ensures more ==> Avail(stream.data, stream.pos) + st'.count < Avail(stream.data, old(stream.pos)) + st.count
      ensures status == old(status) || status == StatusFormatError
      ensures old(stream.pos) <= stream.pos
    {
      st' := st;
      more := true;
      if st.count == 0 {
        var n := ReadBlock();
        if n <= 0 {
          more := false;
        } else {
          st' := st.(count := n, bi := 0);
        }
      }
      if more {
        st' := st'.(datum := Int32(st'.datum + ShiftLeft(block[st'.bi], st'.bits)), bits := st'.bits + 8, bi := st'.bi + 1, count := st'.count - 1);
      }
    }

    /** A code past the first since the last clear code: its string is
        pushed on the (empty) pixel stack by following the prefixes, and a
        new table entry, the previous code's string and this string's first
        byte, is added while the table has room; the code size grows when
        the next free code reaches a power of two. A code equal to the next
        free one (a string followed by its own first byte) starts from the
        previous code. `stop` ends the decoding loop: the table is full, or
        a code or the stack went out of range and the outcome is thrown. */
    method Expand(st: Lzw, code: int, ghost dataSize: int, clear: int) returns (o: Outcome, st': Lzw, stop: bool)
      requires LzwArrays() && Inv(st, dataSize, clear) && st.top == 0 && 0 <= clear
      requires code <= st.available
      modifies pixelStack, prefix, suffix
      ensures o == Pass || o == Thrown("ArrayIndexOutOfBoundsException")
      ensures o.Thrown? ==> stop
      ensures Inv(st', dataSize, clear)
      ensures st'.datum == st.datum && st'.bits == st.bits && st'.bi == st.bi && st'.count == st.count
      ensures !stop ==> st'.top >= 1
    {
      o, st', stop := Pass, st, false;
      var c, top := code, 0;
      if c == st.available {
        pixelStack[top] := st.first % 256;
        top := top + 1;
        c := st.oldCode;
      }
      while c > clear && o == Pass
        invariant 0 <= top <= MaxStackSize + 1
        invariant o == Pass || o == Thrown("ArrayIndexOutOfBoundsException")
        decreases MaxStackSize + 1 - top, if o == Pass then 1 else 0
      {
        if !(0 <= c < MaxStackSize) || top > MaxStackSize {
          o := Thrown("ArrayIndexOutOfBoundsException");
        } else {
          pixelStack[top] := suffix[c];
          top := top + 1;
          c := prefix[c] as int;
        }
      }
      if o == Pass && !(0 <= c < MaxStackSize) {
        o := Thrown("ArrayIndexOutOfBoundsException");
      }
      st' := st.(top := top);
      if o.Thrown? {
        stop := true;
      } else {
        var first := suffix[c];
        st' := st'.(first := first);
        if st.available >= MaxStackSize {
          stop := true;
        } else if top > MaxStackSize {
          o, stop := Thrown("ArrayIndexOutOfBoundsException"), true;
        } else {
          pixelStack[top] := first;
          prefix[st.available] := Int16(st.oldCode) as Short;
          suffix[st.available] := first;
          var available := st.available + 1;
          var codeSize, codeMask := st.codeSize, st.codeMask;
          if And32(available, codeMask) == 0 && available < MaxStackSize {
            codeSize := codeSize + 1;
            codeMask := Int32(codeMask + available);
          }
          st' := st'.(top := top + 1, available := available, codeSize := codeSize, codeMask := codeMask, oldCode := code);
        }
      }
    }

    /** The next code, taken from the low end of `datum` once it holds
        enough bits, and what it does: the end-of-information code or one
        beyond the table stops the decoding; the clear code resets the
        code size and the table; the first code after a clear is pushed as
        it is; any other is expanded. */
    method NextString(st: Lzw, dataSize: int, clear: int) returns (o: Outcome, st': Lzw, stop: bool)
      requires LzwArrays() && Inv(st, dataSize, clear) && clear == ShiftOne(dataSize)
      requires st.top == 0 && st.bits >= st.codeSize
      modifies pixelStack, prefix, suffix
      ensures o == Pass || o == Thrown("ArrayIndexOutOfBoundsException")
      ensures o.Thrown? ==> stop
      ensures Inv(st', dataSize, clear)
      ensures st'.count == st.count && st'.bi == st.bi
      ensures !stop ==> st'.bits < st.bits
      ensures clear < 0 ==> stop && o == Pass
    {
      o, stop := Pass, false;
      var code := And32(st.datum, st.codeMask);
      if st.codeMask == 0 {
        AndZero(st.datum);
      }
      st' := st.(datum := ShiftRight(st.datum, st.codeSize), bits := st.bits - st.codeSize);
      if code > st'.available || code == clear + 1 {
        stop := true;
      } else if code == clear {
        if clear >= 0 {
          st' := st'.(codeSize := dataSize + 1, codeMask := Int32(ShiftOne(dataSize + 1) - 1), available := clear + 2, oldCode := -1);
        }
      } else if st'.oldCode == -1 {
        if !(0 <= code < MaxStackSize) {
          o, stop := Thrown("ArrayIndexOutOfBoundsException"), true;
        } else {
          pixelStack[0] := suffix[code];
          st' := st'.(top := 1, oldCode := code, first := code);
        }
      } else {
        o, st', stop := Expand(st', code, dataSize, clear);
      }
    }

    /** One turn of the decoding loop with an empty pixel stack: a byte
        more for `datum`, or the next code's effect. Unless the loop stops,
        the stack is no longer empty, or fewer bytes remain to be read, or
        as many and fewer bits are held. */
    method Refill(st: Lzw, dataSize: int, clear: int) returns (o: Outcome, st': Lzw, stop: bool)
      requires stream != null && LzwArrays() && Inv(st, dataSize, clear) && clear == ShiftOne(dataSize)
      requires st.top == 0
      modifies stream, this`blockSize, this`status, block, prefix, suffix, pixelStack
      ensures o == Pass || o == Thrown("ArrayIndexOutOfBoundsException")
      ensures o.Thrown? ==> stop
      ensures Inv(st', dataSize, clear)
      ensures !stop && st'.top == 0 ==>
        var before, after := Avail(stream.data, old(stream.pos)) + st.count, Avail(stream.data, stream.pos) + st'.count;
        after < before || (after == before && st'.bits < st.bits)
      ensures status == old(status) || status == StatusFormatError
      ensures old(stream.pos) <= stream.pos
      ensures clear < 0 ==> o == Pass
      ensures dataSize == -1 ==> stop && stream.pos == old(stream.pos)
    {
      if st.bits < st.codeSize {
        var more;
        o := Pass;
        st', more := LoadByte(st, dataSize, clear);
        stop := !more;
      } else {
        o, st', stop := NextString(st, dataSize, clear);
      }
    }

    /** The decoding loop of `decodeBitmapData` for a data size whose
        table fits: each code's string is pushed on the pixel stack and
        popped into `pixels`. The loop stops at the end-of-information code,
        at a code beyond the table, when the table is full or when the data
        runs out; `decoded` pixels have been written. */
    method DecodePixels(dataSize: int, npix: int) returns (o: Outcome, decoded: int)
      requires stream != null && LzwArrays() && pixels.Length >= npix
      requires IsRead(dataSize) && ShiftOne(dataSize) <= MaxStackSize
      modifies stream, this`blockSize, this`status, block, prefix, suffix, pixelStack, pixels
      ensures o == Pass || o == Thrown("ArrayIndexOutOfBoundsException")
      ensures 0 <= decoded && (decoded == 0 || decoded <= npix)
      ensures forall k :: decoded <= k < pixels.Length ==> pixels[k] == old(pixels[k])
      ensures status == old(status) || status == StatusFormatError
      ensures old(stream.pos) <= stream.pos
      ensures ShiftOne(dataSize) < 0 ==> o == Pass && decoded == 0
      ensures dataSize == -1 ==> stream.pos == old(stream.pos)
    {
      var clear := ShiftOne(dataSize);
      if clear < 0 {
        ModStep(dataSize + 1, 32);
      }
      var st := Lzw(0, 0, 0, 0, dataSize + 1, Int32(ShiftOne(dataSize + 1) - 1), clear + 2, -1, 0, 0);
      var i := 0;
      o := Pass;
      while i < npix
        invariant 0 <= i && (i == 0 || i <= npix)
        invariant forall k :: i <= k < pixels.Length ==> pixels[k] == old(pixels[k])
        invariant Inv(st, dataSize, clear) && (clear < 0 ==> i == 0)
        invariant o == Pass
        invariant status == old(status) || status == StatusFormatError
        invariant old(stream.pos) <= stream.pos
        invariant dataSize == -1 ==> stream.pos == old(stream.pos)
        decreases npix - i, Avail(stream.data, stream.pos) + st.count, st.bits
      {
        var stop, i';
        o, st, stop, i' := DecodeStep(st, dataSize, clear, i, npix);
        if stop {
          break;
        }
        i := i';
      }
      decoded := i;
    }

    /** One turn of the decoding loop at pixel `i`: with an empty stack, a
        byte more or the next code's effect, then, once the stack holds
        something, one pixel popped into `pixels[i]`. Unless the loop stops,
        either a pixel is written or fewer bytes remain to be read, or as
        many and fewer bits are held. */
    method DecodeStep(st: Lzw, dataSize: int, clear: int, i: int, npix: int) returns (o: Outcome, st': Lzw, stop: bool, i': int)
      requires stream != null && LzwArrays() && pixels.Length >= npix && 0 <= i < npix
      requires Inv(st, dataSize, clear) && clear == ShiftOne(dataSize)
      modifies stream, this`blockSize, this`status, block, prefix, suffix, pixelStack, pixels
      ensures o == Pass || o == Thrown("ArrayIndexOutOfBoundsException")
      ensures o.Thrown? ==> stop
      ensures Inv(st', dataSize, clear)
      ensures i' == i || (i' == i + 1 && !stop)
      ensures forall k :: i' <= k < pixels.Length ==> pixels[k] == old(pixels[k])
      ensures !stop && i' == i ==>
        var before, after := Avail(stream.data, old(stream.pos)) + st.count, Avail(stream.data, stream.pos) + st'.count;
        after < before || (after == before && st'.bits < st.bits)
      ensures clear < 0 ==> o == Pass && i' == i
      ensures status == old(status) || status == StatusFormatError
      ensures old(stream.pos) <= stream.pos
      ensures dataSize == -1 ==> stop && stream.pos == old(stream.pos)
    {
      o, st', stop, i' := Pass, st, false, i;
      if st.top == 0 {
        o, st', stop := Refill(st, dataSize, clear);
        if stop || st'.top == 0 {
          return;
        }
      }
      st' := st'.(top := st'.top - 1);
      pixels[i] := pixelStack[st'.top];
      i' := i + 1;
    }

    /** The number of pixels of the current image, `iw * ih` as a 32-bit
        product. */
    function Npix(): int
      reads this`iw, this`ih
    {
      Int32(iw * ih)
    }

    /** The pixels from `from` up to `npix`, cleared. */
    method ClearMissing(from: int, npix: int)
      requires pixels != null && 0 <= from && pixels.Length >= npix
      modifies pixels
      ensures forall k :: 0 <= k < pixels.Length ==> pixels[k] == if from <= k < npix then 0 else old(pixels[k])
    {
      var k := from;
      while k < npix
        invariant from <= k && (k == from || k <= npix)
        invariant forall j :: 0 <= j < pixels.Length ==> pixels[j] == if from <= j < k then 0 else old(pixels[j])
      {
        pixels[k] := 0;
        k := k + 1;
      }
    }

    /** What follows the allocations in `decodeBitmapData`: the data size
        byte, the table's roots, the decoding loop and the clearing of the
        pixels the data does not reach. */
    method DecodeData(npix: int) returns (o: Outcome, decoded: int)
      requires stream != null && LzwArrays() && pixels.Length >= npix
      modifies stream, this`blockSize, this`status, block, pixels, prefix, suffix, pixelStack
      ensures o == Pass || o == Thrown("ArrayIndexOutOfBoundsException")
      ensures 13 <= old(At(0)) % 32 <= 30 ==> o.Thrown? && stream.pos == old(stream.pos) + 1
      ensures o == Pass ==>
        && 0 <= decoded && (decoded == 0 || decoded <= npix)
        && forall k :: decoded <= k < npix ==> pixels[k] == 0
      ensures o == Pass && old(At(0)) % 32 == 31 ==> decoded == 0
      ensures o == Pass ==> forall k :: 0 <= k < pixels.Length && npix <= k ==> pixels[k] == old(pixels[k])
      ensures old(At(0)) == -1 ==> stream.pos == old(stream.pos) + 1
      ensures status == old(status) || status == StatusFormatError
      ensures old(stream.pos) <= stream.pos
    {
      decoded := 0;
      var dataSize := stream.Read();
      var clear := ShiftOne(dataSize);
      ShiftOneFits(dataSize);
      o := InitTable(clear);
      if o == Pass {
        o, decoded := DecodePixels(dataSize, npix);
        if o == Pass {
          ClearMissing(decoded, npix);
        }
      }
    }

    /** `decodeBitmapData`: the LZW data of the current image, after its
        data size byte, into the first `Npix()` entries of `pixels`; the
        pixels the data does not reach are cleared. A data size whose table
        of roots exceeds the 4096 codes throws while the table is set up; a
        data size of -1, the stream's end, leaves every pixel clear. */
    method DecodeBitmapData() returns (o: Outcome, ghost decoded: int)
      requires stream != null && Buffers()
      modifies this`pixels, this`prefix, this`suffix, this`pixelStack, stream, this`blockSize, this`status
      modifies block, pixels, prefix, suffix, pixelStack
      ensures Buffers()
      ensures o.Thrown? ==> o.exception == "NegativeArraySizeException" || o.exception == "ArrayIndexOutOfBoundsException"
      ensures o == Thrown("NegativeArraySizeException") <==> Npix() < 0 && old(pixels) == null
      ensures Npix() >= 0 && 13 <= old(At(0)) % 32 <= 30 ==> o == Thrown("ArrayIndexOutOfBoundsException")
      ensures o.Pass? ==>
        && LzwArrays() && pixels.Length >= Npix()
        && 0 <= decoded && (decoded == 0 || decoded <= Npix())
        && forall k :: decoded <= k < Npix() ==> pixels[k] == 0
      ensures o.Pass? && old(At(0)) == -1 ==> decoded == 0 && stream.pos == old(stream.pos) + 1
      ensures o.Pass? && pixels == old(pixels) ==> forall k :: 0 <= k < pixels.Length && Npix() <= k ==> pixels[k] == old(pixels[k])
      ensures status == old(status) || status == StatusFormatError
      ensures old(stream.pos) <= stream.pos
      ensures pixels == old(pixels) || fresh(pixels)
      ensures prefix == old(prefix) || fresh(prefix)
      ensures suffix == old(suffix) || fresh(suffix)
      ensures pixelStack == old(pixelStack) || fresh(pixelStack)
    {
      decoded := 0;
      o := AllocateBuffers(Npix());
      if o == Pass {
        o, decoded := DecodeData(Npix());
      }
    }

    /** `getFrame(n)`: none before any frame has been counted; otherwise
        frame `n % frameCount`, Java's remainder, so that a negative `n`
        finds the first frame or throws. */
    function GetFrame(n: int): (r: Result<Option<Pixmap>, string>)
      reads this`frameCount, this`frames
      ensures r == Ok(None) <==> frameCount <= 0
      ensures frameCount == |frames| > 0 && n >= 0 ==> r == Ok(Some(frames[n % frameCount].image))
      ensures frameCount == |frames| > 0 && n < 0 ==> r == Ok(Some(frames[0].image)) || r == Err("ArrayIndexOutOfBoundsException")
    {
      FrameAt(frames, frameCount, n)
    }

    /** The frames repeat: `getFrame` counts modulo the number of frames. */
    lemma GetFrameCycles(n: int)
      requires frameCount == |frames| > 0 && n >= 0
      ensures GetFrame(n + frameCount) == GetFrame(n)
    {
      DivModUnique(n + frameCount, frameCount, n / frameCount + 1, n % frameCount);
    }

    /** `getFrameCount`: between frames, the number of frames kept. */
    function GetFrameCount(): (c: int)
      requires Valid()
      reads this
      ensures c == |frames|
    {
      frameCount
    }

    /** `getDelay(n)`: frame `n`'s delay, or -1 when there is no frame `n`;
        the result is also left in `delay`. */
    method GetDelay(n: int) returns (d: int)
      requires Valid()
      modifies this`delay
      ensures d == delay
      ensures 0 <= n < |frames| ==> d == frames[n].delay
      ensures !(0 <= n < |frames|) ==> d == -1
    {
      delay := -1;
      if 0 <= n < frameCount {
        delay := frames[n].delay;
      }
      d := delay;
    }

    /** The pixmap `setPixels` starts from: with disposal method 3 (restore
        to previous), the frame before the last one, or none while fewer
        than three frames have been counted; otherwise the last frame. */
    function PreviousPixmap(): Result<Option<Pixmap>, string>
      reads this`lastDispose, this`frameCount, this`frames, this`lastPixmap
    {
      PreviousOf(lastDispose, lastPixmap, frames, frameCount)
    }

    /** What the next frame is drawn over, once it has been counted: the
        screen's size, the count with this frame, the frames kept, and the
        previous image's disposal method, pixmap, rectangle and colour. */
    function NextBackdrop(): Backdrop
      reads this`width, this`height, this`lastDispose, this`frameCount, this`frames, this`lastPixmap
      reads this`lrx, this`lry, this`lrw, this`lrh, this`transparency, this`lastBgColor
    {
      Backdrop(width, height, frameCount + 1, frames, lastDispose, lastPixmap, Rect(lrx, lry, lrw, lrh),
               if transparency then 0 else lastBgColor)
    }

    /** `setPixels`: a new frame of `width * height` pixels (a negative
        size throws), started from the previous pixmap as the last disposal
        method asks, with the current image drawn over it; the result
        becomes `image`. */
    method SetPixels() returns (o: Outcome)
      requires act != null && act.Length == 256 && pixels != null && IsInt32(width * height)
      modifies this`image, this`lastPixmap
      ensures o.Pass? ==> image.Some? && image.value.width == width && image.value.height == height
      ensures width * height < 0 ==>
        o == Thrown("NegativeArraySizeException") && image == old(image) && lastPixmap == old(lastPixmap)
      ensures width * height >= 0 && old(PreviousPixmap()).Err? ==>
        o == Thrown(old(PreviousPixmap()).error) && image == old(image) && lastPixmap == old(lastPixmap)
      ensures width * height >= 0 && old(PreviousPixmap()).Ok? ==>
        && lastPixmap == old(PreviousPixmap()).value
        && var e := ComposeFrame(width, height, lastDispose, lastPixmap, Rect(lrx, lry, lrw, lrh), if transparency then 0 else lastBgColor,
                                 pixels[..], act[..], Rect(ix, iy, iw, ih), interlace);
           (e.Err? ==> o == Thrown(e.error) && image == old(image)) &&
           (e.Ok? ==> o == Pass && image == Some(PixmapOf(e.value, width, height)))
    {
      var n := Int32(width * height);
      if n < 0 {
        return Thrown("NegativeArraySizeException");
      }
      o := TakePreviousPixmap();
      if o.Thrown? {
        return;
      }
      var c := if transparency then 0 else lastBgColor;
      var start := StartFrame(width, height, lastDispose, lastPixmap, Rect(lrx, lry, lrw, lrh), c);
      if start.Err? {
        return Thrown(start.error);
      }
      var dest := start.value;
      if ih >= 0 {
        var d := DrawRows(dest, pixels, act, Rect(ix, iy, iw, ih), interlace, width, height);
        if d.Err? {
          return Thrown(d.error);
        }
      }
      image := Some(PixmapOf(dest[..], width, height));
      o := Pass;
    }

    /** The first step of `setPixels` with disposal method 3: the frame
        before the last one becomes `lastPixmap`. */
    method TakePreviousPixmap() returns (o: Outcome)
      modifies this`lastPixmap
      ensures PreviousPixmap().Err? <==> o.Thrown?
      ensures old(PreviousPixmap()).Err? ==> o == Thrown(old(PreviousPixmap()).error) && lastPixmap == old(lastPixmap)
      ensures old(PreviousPixmap()).Ok? ==> o == Pass && lastPixmap == old(PreviousPixmap()).value
    {
      o := Pass;
      if lastDispose == 3 {
        var m := Int32(frameCount - 2);
        if m > 0 {
          var f := GetFrame(m - 1);
          if f.Err? {
            return Thrown(f.error);
          }
          lastPixmap := f.value;
        } else {
          lastPixmap := None;
        }
      }
    }

    /** `resetFrame`: the current image's rectangle, disposal method, pixmap
        and background colour become the previous ones, and the graphic
        control extension's settings and the local table are dropped. */
    method ResetFrame()
      modifies this`lastDispose, this`lrx, this`lry, this`lrw, this`lrh, this`lastPixmap, this`lastBgColor
      modifies this`dispose, this`transparency, this`delay, this`lct
      ensures lastDispose == old(dispose) && Rect(lrx, lry, lrw, lrh) == old(Rect(ix, iy, iw, ih))
      ensures lastPixmap == old(image) && lastBgColor == old(bgColor)
      ensures dispose == 0 && !transparency && delay == 0 && lct == null
    {
      lastDispose := dispose;
      lrx, lry, lrw, lrh := ix, iy, iw, ih;
      lastPixmap := image;
      lastBgColor := bgColor;
      dispose := 0;
      transparency := false;
      delay := 0;
      lct := null;
    }

    /** The image descriptor's rectangle: four shorts. */
    method ReadImageRect()
      requires stream != null
      modifies stream, this`ix, this`iy, this`iw, this`ih
      ensures stream.pos == old(stream.pos) + 8
      ensures Rect(ix, iy, iw, ih) == ImageRect(stream.data, old(stream.pos))
    {
      ix := ReadShort();
      iy := ReadShort();
      iw := ReadShort();
      ih := ReadShort();
    }

    /** The image descriptor of `readBitmap`: the rectangle
        (`ReadImageRect`), then the packed fields and the table they select
        (`SelectTable`). */
    method ReadImageDescriptor()
      requires stream != null && Tables()
      modifies stream, this`ix, this`iy, this`iw, this`ih, this`lctFlag, this`lctSize, this`interlace
      modifies this`lct, this`act, this`bgColor, this`status
      ensures Tables()
      ensures act == null || act == gct || fresh(act)
      ensures status == old(status) || status == StatusFormatError
      ensures old(stream.pos) + 9 <= stream.pos
    {
      ReadImageRect();
      SelectTable();
    }

    /** The packed fields of the image descriptor: the local table flag,
        the interlace flag and the local table's size; the local colour
        table read and made active, or else the global one, with the
        background colour cleared when its index is the transparent one. */
    method SelectTable()
      requires stream != null && Tables()
      modifies stream, this`lctFlag, this`lctSize, this`interlace, this`lct, this`act, this`bgColor, this`status
      ensures Tables() && gct == old(gct)
      ensures lctFlag == TableFlag(old(At(0))) && interlace == InterlaceFlag(old(At(0))) && lctSize == LctSize(old(At(0)))
      ensures lctFlag ==> act == lct && (lct == null || fresh(lct)) && bgColor == old(bgColor)
      ensures lctFlag ==> (lct != null <==> Avail(stream.data, old(stream.pos) + 1) >= 3 * lctSize)
      ensures !lctFlag ==> act == gct && lct == old(lct) && bgColor == (if old(bgIndex == transIndex) then 0 else old(bgColor))
      ensures status == old(status) || status == StatusFormatError
      ensures old(stream.pos) + 1 <= stream.pos
    {
      var packed := stream.Read();
      lctFlag := TableFlag(packed);
      lctSize := LctSize(packed);
      interlace := InterlaceFlag(packed);
      if lctFlag {
        LctSizeIsGctSize(packed);
        GctSizeBitwise(packed);
        lct := ReadColorTable(lctSize);
        act := lct;
      } else {
        act := gct;
        if bgIndex == transIndex {
          bgColor := 0;
        }
      }
    }

    /** `readBitmap`: the image descriptor; the transparent colour's entry
        of the active table cleared for the time of the frame; a missing
        table is a format error. Then the LZW data and the sub-blocks after
        it, and, when nothing has gone wrong, one more frame (`AddFrame`). */
    method ReadBitmap() returns (o: Outcome)
      requires stream != null && Valid()
      modifies stream, this`ix, this`iy, this`iw, this`ih, this`lctFlag, this`lctSize, this`interlace
      modifies this`lct, this`act, this`bgColor, this`status
      modifies this`pixels, this`prefix, this`suffix, this`pixelStack, this`blockSize, block, pixels, prefix, suffix, pixelStack
      modifies this`frameCount, this`image, this`frames, gct
      modifies this`lastDispose, this`lrx, this`lry, this`lrw, this`lrh, this`lastPixmap, this`lastBgColor
      modifies this`dispose, this`transparency, this`delay
      ensures old(stream.pos) + 9 <= stream.pos
      ensures status == old(status) || status == StatusFormatError
      ensures Renewed()
      ensures old(frames) <= frames
      ensures o.Pass? ==> Valid()
      ensures o.Pass? && status != StatusOk ==> frames == old(frames)
      ensures o.Pass? && status == StatusOk ==>
        && lastPixmap.Some? && frames == old(frames) + [GifFrame(lastPixmap.value, old(delay))]
        && (gct != null ==> gct[..] == old(gct[..]))
    {
      ReadImageDescriptor();
      o := ReadImage();
    }

    /** What follows the image descriptor in `readBitmap`: the transparent
        colour's entry cleared, a missing table noted as a format error,
        then the data and the frame; a frame kept leaves the active table
        as it found it. */
    method ReadImage() returns (o: Outcome)
      requires stream != null && Valid()
      modifies this`pixels, this`prefix, this`suffix, this`pixelStack, this`blockSize, this`status, stream, block, pixels, prefix, suffix, pixelStack
      modifies this`frameCount, this`image, this`frames, act
      modifies this`lastDispose, this`lrx, this`lry, this`lrw, this`lrh, this`lastPixmap, this`lastBgColor
      modifies this`dispose, this`transparency, this`delay, this`lct
      ensures old(stream.pos) <= stream.pos
      ensures status == old(status) || status == StatusFormatError
      ensures Renewed()
      ensures old(frames) <= frames
      ensures o.Pass? ==> Valid()
      ensures o.Pass? && status != StatusOk ==> frames == old(frames)
      ensures o.Pass? && status == StatusOk ==>
        && act != null && act[..] == old(act[..])
        && lastPixmap.Some? && frames == old(frames) + [GifFrame(lastPixmap.value, old(delay))]
    {
      var save;
      o, save := ClearTransparent();
      if o.Thrown? {
        return;
      }
      if act == null {
        status := StatusFormatError;
      }
      if status != StatusOk {
        return Pass;
      }
      ghost var cleared := act[..];
      o := ReadFrameData(save);
      if o.Pass? && status == StatusOk {
        assert act[..] == Restore(cleared, old(transparency), old(transIndex), save);
        assert act[..] == old(act[..]);
      }
    }

    /** With the transparency flag set, the transparent colour's entry of
        the active table is saved and cleared; a missing table or an index
        outside it throws. */
    method ClearTransparent() returns (o: Outcome, save: int)
      requires Tables()
      modifies act
      ensures !transparency ==> o == Pass && save == 0 && (act != null ==> act[..] == old(act[..]))
      ensures transparency && act == null ==> o == Thrown("NullPointerException")
      ensures transparency && act != null && !(0 <= transIndex < 256) ==> o == Thrown("ArrayIndexOutOfBoundsException")
      ensures transparency && act != null && 0 <= transIndex < 256 ==>
        o == Pass && save == old(act[transIndex]) && act[..] == old(act[..])[transIndex := 0]
    {
      o, save := Pass, 0;
      if transparency {
        if act == null {
          return Thrown("NullPointerException"), 0;
        }
        if !(0 <= transIndex < 256) {
          return Thrown("ArrayIndexOutOfBoundsException"), 0;
        }
        save := act[transIndex];
        act[transIndex] := 0;
      }
    }

    /** The rest of `readBitmap`: the image's data and, when nothing has
        gone wrong, the frame. */
    method ReadFrameData(save: int) returns (o: Outcome)
      requires stream != null && Valid() && act != null && status == StatusOk
      requires transparency ==> 0 <= transIndex < 256
      modifies this`pixels, this`prefix, this`suffix, this`pixelStack, this`blockSize, this`status, stream, block, pixels, prefix, suffix, pixelStack
      modifies this`frameCount, this`image, this`frames, act
      modifies this`lastDispose, this`lrx, this`lry, this`lrw, this`lrh, this`lastPixmap, this`lastBgColor
      modifies this`dispose, this`transparency, this`delay, this`lct
      ensures old(stream.pos) <= stream.pos
      ensures status == old(status) || status == StatusFormatError
      ensures Renewed()
      ensures old(frames) <= frames
      ensures o.Pass? ==> Valid()
      ensures o.Pass? && status != StatusOk ==> frames == old(frames)
      ensures o.Pass? && status == StatusOk ==>
        && lastPixmap.Some? && frames == old(frames) + [GifFrame(lastPixmap.value, old(delay))]
        && act[..] == Restore(old(act[..]), old(transparency), old(transIndex), save)
    {
      o := ReadImageData();
      if o.Thrown? {
        return;
      }
      if status != StatusOk {
        return Pass;
      }
      o := AddFrame(save);
    }

    /** The arrays the decoder allocates as it goes are the ones it had or
        new ones. */
    twostate predicate Renewed()
      reads this
    {
      && (pixels == old(pixels) || fresh(pixels))
      && (prefix == old(prefix) || fresh(prefix))
      && (suffix == old(suffix) || fresh(suffix))
      && (pixelStack == old(pixelStack) || fresh(pixelStack))
    }

    /** The image's LZW data and the sub-blocks after it. */
    method ReadImageData() returns (o: Outcome)
      requires stream != null && Valid()
      modifies this`pixels, this`prefix, this`suffix, this`pixelStack, this`blockSize, this`status, stream, block, pixels, prefix, suffix, pixelStack
      ensures Valid() && Renewed()
      ensures old(stream.pos) <= stream.pos
      ensures status == old(status) || status == StatusFormatError
      ensures o.Pass? ==> pixels != null
      ensures act != null ==> act[..] == old(act[..])
    {
      ghost var decoded;
      o, decoded := DecodeBitmapData();
      if o.Pass? {
        Skip();
      }
    }

    /** The end of `readBitmap` once the image's data has been read: the
        frame counted, a blank pixmap made (libGDX's allocation of one whose
        pixels do not fit in a Java `int` is taken to fail), composed by
        `setPixels` (`NewFrame`), and kept (`KeepFrame`). */
    method AddFrame(save: int) returns (o: Outcome)
      requires Valid() && act != null && pixels != null
      requires transparency ==> 0 <= transIndex < 256
      modifies this`frameCount, this`image, this`frames, act
      modifies this`lastDispose, this`lrx, this`lry, this`lrw, this`lrh, this`lastPixmap, this`lastBgColor
      modifies this`dispose, this`transparency, this`delay, this`lct
      ensures old(frames) <= frames
      ensures o.Pass? ==> Valid()
      ensures o.Pass? ==>
        && lastPixmap.Some? && frames == old(frames) + [GifFrame(lastPixmap.value, old(delay))]
        && act[..] == Restore(old(act[..]), old(transparency), old(transIndex), save)
      ensures var e := ComposedImage(old(NextBackdrop()), pixels[..], old(act[..]), Rect(ix, iy, iw, ih), interlace);
        && (e.Err? ==> o == Thrown(e.error) && frames == old(frames))
        && (e.Ok? ==> o == Pass && lastPixmap == Some(e.value))
    {
      o := NewFrame();
      if o.Thrown? {
        return;
      }
      KeepFrame(save);
    }

    /** The frame counted, a blank pixmap made and composed by `setPixels`. */
    method NewFrame() returns (o: Outcome)
      requires act != null && act.Length == 256 && pixels != null
      modifies this`frameCount, this`image, this`lastPixmap
      ensures frameCount == old(frameCount) + 1
      ensures o.Pass? ==> image.Some? && image.value.width == width && image.value.height == height
      ensures var e := ComposedImage(old(NextBackdrop()), old(pixels[..]), old(act[..]), Rect(ix, iy, iw, ih), interlace);
        && (e.Ok? ==> o == Pass && image == Some(e.value))
        && (e.Err? ==> o == Thrown(e.error))
    {
      frameCount := frameCount + 1;
      if !IsInt32(width * height) {
        return Thrown("GdxRuntimeException");
      }
      image := Some(BlankPixmap(width, height));
      o := SetPixels();
    }

    /** The frame composed by `setPixels` joins the list with its delay; the
        transparent colour's table entry is restored and the frame state
        reset. */
    method KeepFrame(save: int)
      requires Arrays() && frameCount == |frames| + 1 && act != null
      requires image.Some? && image.value.width == width && image.value.height == height
      requires transparency ==> 0 <= transIndex < 256
      modifies this`frames, act
      modifies this`lastDispose, this`lrx, this`lry, this`lrw, this`lrh, this`lastPixmap, this`lastBgColor
      modifies this`dispose, this`transparency, this`delay, this`lct
      ensures Valid()
      ensures frames == old(frames) + [GifFrame(old(image.value), old(delay))] && lastPixmap == old(image)
      ensures Rect(lrx, lry, lrw, lrh) == old(Rect(ix, iy, iw, ih))
      ensures act[..] == Restore(old(act[..]), old(transparency), old(transIndex), save)
      ensures dispose == 0 && !transparency && delay == 0
    {
      frames := frames + [GifFrame(image.value, delay)];
      if transparency {
        act[transIndex] := save;
      }
      ResetFrame();
    }

    /** An extension block after its introducer: a graphic control
        extension; an application extension, whose first sub-block names
        it, read as the NETSCAPE2.0 loop extension or skipped; any other
        label's sub-blocks skipped. */
    method ReadExtension()
      requires stream != null && block.Length == 256
      modifies stream, this`dispose, this`transparency, this`delay, this`transIndex, this`blockSize, this`status, this`loopCount, block
      ensures old(stream.pos) < stream.pos
      ensures status == old(status) || status == StatusFormatError
      ensures old(At(0)) == 0xF9 ==>
        && stream.pos == old(stream.pos) + 7 && status == old(status)
        && dispose == DisposalMethod(old(At(2))) && transparency == TransparencyFlag(old(At(2)))
        && delay == 10 * ShortOf(old(At(3)), old(At(4))) && transIndex == old(At(5))
      ensures old(At(0)) != 0xF9 ==>
        dispose == old(dispose) && transparency == old(transparency) && delay == old(delay) && transIndex == old(transIndex)
      ensures loopCount == old(loopCount) || (old(At(0)) == 0xFF && 0 <= loopCount < 65536)
    {
      var kind := stream.Read();
      if kind == 0xF9 {
        ReadGraphicControlExt();
      } else if kind == 0xFF {
        var n := ReadBlock();
        if block[..11] == Netscape {
          ReadNetscapeExt();
        } else {
          Skip();
        }
      } else {
        Skip();
      }
    }

    /** One pass of the loop of `readContents`: the block introducer read
        and its block handled. An image separator reads a frame, an
        extension introducer an extension, the trailer ends the loop, a zero
        byte is passed over and any other value, the end of the stream
        included, is a format error. */
    method ContentStep() returns (o: Outcome, done: bool)
      requires stream != null && Valid()
      modifies stream, this`ix, this`iy, this`iw, this`ih, this`lctFlag, this`lctSize, this`interlace
      modifies this`lct, this`act, this`bgColor, this`status
      modifies this`pixels, this`prefix, this`suffix, this`pixelStack, this`blockSize, block, pixels, prefix, suffix, pixelStack
      modifies this`frameCount, this`image, this`frames, gct
      modifies this`lastDispose, this`lrx, this`lry, this`lrw, this`lrh, this`lastPixmap, this`lastBgColor
      modifies this`dispose, this`transparency, this`delay, this`transIndex, this`loopCount
      ensures old(stream.pos) < stream.pos
      ensures status == old(status) || status == StatusFormatError
      ensures Renewed()
      ensures old(frames) <= frames
      ensures o.Pass? ==> Valid()
      ensures done ==> o.Pass? && old(At(0)) == 0x3B
      ensures old(At(0)) == 0x3B ==> done && stream.pos == old(stream.pos) + 1 && status == old(status)
      ensures old(At(0)) == 0 ==> o.Pass? && !done && stream.pos == old(stream.pos) + 1 && status == old(status)
      ensures old(At(0)) !in {0x2C, 0x21, 0x3B, 0} ==> o.Pass? && !done && status == StatusFormatError
      ensures old(At(0)) != 0x2C ==> frames == old(frames)
    {
      o, done := Pass, false;
      var code := stream.Read();
      if code == 0x2C {
        o := ReadBitmap();
      } else if code == 0x21 {
        ReadExtension();
      } else if code == 0x3B {
        done := true;
      } else if code != 0 {
        status := StatusFormatError;
      }
    }

    /** `readContents`: blocks until the trailer, a format error or an
        exception. Frames are only ever added, and a loop that ends without
        error has just read the trailer. */
    method ReadContents() returns (o: Outcome)
      requires stream != null && Valid()
      modifies this, stream, block, gct, prefix, suffix, pixelStack, pixels
      ensures stream == old(stream) && gct == old(gct)
      ensures status == old(status) || status == StatusFormatError
      ensures old(frames) <= frames
      ensures o.Pass? ==> Valid()
      ensures o.Pass? && status == StatusOk ==> ByteAt(stream.data, stream.pos - 1) == 0x3B
    {
      o := Pass;
      var done := false;
      while !done && status == StatusOk
        invariant stream == old(stream) && gct == old(gct)
        invariant Valid() && Renewed()
        invariant status == old(status) || status == StatusFormatError
        invariant old(frames) <= frames
        invariant done ==> status == StatusOk && ByteAt(stream.data, stream.pos - 1) == 0x3B
        decreases Avail(stream.data, stream.pos) + (if !done && status == StatusOk then 1 else 0)
      {
        o, done := ContentStep();
        if o.Thrown? {
          return;
        }
      }
    }

    /** `init`: the status cleared, no frames, no colour tables. */
    method Init()
      modifies this`status, this`frameCount, this`frames, this`gct, this`lct
      ensures status == StatusOk && frameCount == 0 && frames == [] && gct == null && lct == null
    {
      status := StatusOk;
      frameCount := 0;
      frames := [];
      gct := null;
      lct := null;
    }

    /** `read(InputStream)`: with no stream, an open error; otherwise the
        header and the contents read from it. */
    method Read(input: Option<seq<Byte>>) returns (o: Outcome)
      requires Valid()
      modifies this, block, gct, prefix, suffix, pixelStack, pixels
      ensures input.None? ==> o == Pass && status == StatusOpenError && frames == [] && frameCount == 0
      ensures input.Some? ==> stream != null && fresh(stream) && stream.data == input.value
      ensures input.Some? && !SignatureAt(input.value, 0) ==> o == Pass && status == StatusFormatError && frames == []
      ensures status == StatusOk || status == StatusFormatError || status == StatusOpenError
      ensures o.Pass? ==> Valid()
      ensures o.Pass? && status == StatusOk ==> input.Some? && ByteAt(input.value, stream.pos - 1) == 0x3B
    {
      Init();
      o := Pass;
      if input.Some? {
        stream := new ByteStream(input.value);
        o := ReadStream();
      } else {
        status := StatusOpenError;
      }
    }

    /** `readHeader` on a valid decoder keeps it valid: the global colour
        table it may allocate has 256 entries. */
    method ReadScreen() returns (o: Outcome)
      requires stream != null && Valid()
      modifies stream, this`status, this`width, this`height, this`gctFlag, this`gctSize, this`bgIndex, this`pixelAspect, this`gct, this`bgColor
      ensures Valid() && (gct == null || gct == old(gct) || fresh(gct))
      ensures status == old(status) || status == StatusFormatError
      ensures !SignatureAt(stream.data, old(stream.pos)) ==> o == Pass && status == StatusFormatError
    {
      o := ReadHeader();
    }

    /** The body of `read` on an open stream: the header and, when it holds
        no error, the contents. A stream that does not start with "GIF" is
        a format error that adds no frame; a read that ends without error
        has reached the trailer. */
    method ReadStream() returns (o: Outcome)
      requires stream != null && stream.pos == 0 && Valid() && status == StatusOk
      modifies this, stream, block, gct, prefix, suffix, pixelStack, pixels
      ensures stream == old(stream)
      ensures !SignatureAt(stream.data, 0) ==> o == Pass && status == StatusFormatError && frames == old(frames)
      ensures status == StatusOk || status == StatusFormatError
      ensures o.Pass? ==> Valid()
      ensures o.Pass? && status == StatusOk ==> ByteAt(stream.data, stream.pos - 1) == 0x3B
    {
      o := ReadScreen();
      if o.Thrown? {
        return;
      }
      if status == StatusOk {
        o := ReadContents();
      }
    }
  }

  /** The locals of `decodeBitmapData` that outlive one code: the bit
      accumulator and its fill, the unread bytes of the current block and
      the index of the next, the code size and mask, the next free code,
      the previous code, the first byte of the last string and the depth of
      the pixel stack. */
  datatype Lzw = Lzw(datum: int, bits: int, count: int, bi: int, codeSize: int, codeMask: int, available: int, oldCode: int, first: int, top: int)

  /** What holds of the decoder's locals between codes, for a table of
      `clear` roots: the counters are in range (the code size and the bit
      count stay far from overflowing), the accumulator, the mask and the
      next free code are 32-bit values, and with the data size's shift
      wrapping to a negative `clear` the mask is zero and nothing has been
      pushed. */
  predicate Inv(st: Lzw, dataSize: int, clear: int) {
    && IsRead(dataSize)
    && 0 <= st.top <= MaxStackSize + 1
    && 0 <= st.bi && 0 <= st.count && st.bi + st.count < 256
    && dataSize + 1 <= st.codeSize <= MaxStackSize + 257 && 0 <= st.bits < st.codeSize + 8
    && IsInt32(st.datum) && IsInt32(st.codeMask) && IsInt32(st.available) && st.available <= MaxStackSize + 2
    && (clear >= 0 ==> clear + 2 <= st.available && st.codeSize - (dataSize + 1) <= st.available - (clear + 2))
    && (clear < 0 ==> st.codeMask == 0 && st.codeSize == dataSize + 1 && st.available == clear + 2 && st.top == 0)
  }
}
