/** Dirty-rectangle uploads: which part of a frame is sent to the texture, and why the texture
    still equals the whole frame. */
module UploadRegion {
  import opened Basics

  const U32_LIMIT: nat := 0x1_0000_0000

  /** 32-bit arithmetic wraps. */
  function U32(n: nat): nat {
    n % U32_LIMIT
  }

  function AtLeast1(n: u16): nat {
    if n < 1 then 1 else n
  }

  function Clamp(n: nat, low: nat, high: nat): nat
    requires low <= high
  {
    if n < low then low else if n > high then high else n
  }

  function RowStart(y: nat, bytesPerRow: nat): nat {
    y * bytesPerRow
  }

  /** The rectangle a frame reports as changed; all four edges are inclusive. */
  datatype Rect = Rect(left: u16, top: u16, right: u16, bottom: u16)

  datatype Region = Region(x: nat, y: nat, width: nat, height: nat, offset: nat, bytesPerRow: nat)

  function FromDirtyRect(width: u16, height: u16, dirty: Rect, full: bool): Region {
    var w, h := AtLeast1(width), AtLeast1(height);
    var bytesPerRow := U32(w * 4);
    if full then Region(0, 0, w, h, 0, bytesPerRow) else
      var left := Min(dirty.left, w - 1);
      var top := Min(dirty.top, h - 1);
      var right := Clamp(dirty.right, left, w - 1);
      var bottom := Clamp(dirty.bottom, top, h - 1);
      Region(left, top, right - left + 1, bottom - top + 1, U32(U32(RowStart(top, bytesPerRow)) + left * 4), bytesPerRow)
  }

  function Covers(r: Region, x: nat, y: nat): bool {
    r.x <= x < r.x + r.width && r.y <= y < r.y + r.height
  }

  function InRect(r: Rect, x: nat, y: nat): bool {
    r.left <= x <= r.right && r.top <= y <= r.bottom
  }

  /** Every region is a non-empty part of the frame and covers the reported rectangle's part of it. */
  lemma RegionFits(width: u16, height: u16, dirty: Rect, full: bool)
    ensures var r := FromDirtyRect(width, height, dirty, full); var w, h := AtLeast1(width), AtLeast1(height);
      && 1 <= r.width && r.x + r.width <= w && 1 <= r.height && r.y + r.height <= h
      && r.bytesPerRow == w * 4
      && (forall x, y :: 0 <= x < w && 0 <= y < h && (full || InRect(dirty, x, y)) ==> Covers(r, x, y))
  {
  }

  /** The part of one axis of length `n` that is sent for the inclusive range from `low` to `high`: its visible
      part, or a single place when the range is empty or out of sight. */
  predicate OnAxis(k: nat, low: nat, high: nat, n: nat) {
    if low <= high && low < n then low <= k <= high && k < n else k == if low < n then low else n - 1
  }

  /** A region is exactly the visible part of the reported rectangle, nothing more; an empty frame counts as
      one pixel. */
  lemma RegionExact(width: u16, height: u16, dirty: Rect, full: bool, x: nat, y: nat)
    ensures var r := FromDirtyRect(width, height, dirty, full);
      var w, h := if width == 0 then 1 else width, if height == 0 then 1 else height;
      && r.bytesPerRow == w * 4
      && (r.x <= x < r.x + r.width && r.y <= y < r.y + r.height <==> Covers(r, x, y))
      && (Covers(r, x, y) <==>
          x < w && y < h && (full || (OnAxis(x, dirty.left, dirty.right, w) && OnAxis(y, dirty.top, dirty.bottom, h))))
      && (!full && dirty.left <= dirty.right && dirty.left < w && dirty.top <= dirty.bottom && dirty.top < h ==>
          (Covers(r, x, y) <==> x < w && y < h && InRect(dirty, x, y)))
  {
    hide RowStart;
  }

  /** The byte offset of a pixel in a frame with rows of `w` pixels. */
  function PixelAt(w: nat, x: nat, y: nat): nat {
    (y * w + x) * 4
  }

  lemma PixelInFrame(w: nat, h: nat, x: nat, y: nat)
    requires x < w && y < h
    ensures PixelAt(w, x, y) + 4 <= w * h * 4
  {
    assert y * w + w <= h * w by {
      assert (y + 1) * w <= h * w;
    }
  }

  ghost predicate OffsetExact(width: u16, height: u16, dirty: Rect) {
    var r := FromDirtyRect(width, height, dirty, false);
    r.offset == PixelAt(AtLeast1(width), r.x, r.y)
  }

  lemma WrapTwice(a: nat, b: nat)
    ensures U32(U32(a) + b) == U32(a + b)
  {
  }

  /** Moving `down` rows and `across` pixels in a buffer of rows of `w` pixels. */
  lemma PixelFurther(w: nat, x: nat, y: nat, across: nat, down: nat)
    ensures PixelAt(w, x, y) + down * (w * 4) + across * 4 == PixelAt(w, x + across, y + down)
  {
    assert (y + down) * w == y * w + down * w;
    assert down * (w * 4) == (down * w) * 4;
  }

  lemma OffsetIsWrapped(width: u16, height: u16, dirty: Rect)
    ensures var r := FromDirtyRect(width, height, dirty, false);
      r.offset == U32(PixelAt(AtLeast1(width), r.x, r.y))
  {
    var r := FromDirtyRect(width, height, dirty, false);
    OffsetFormula(width, height, dirty);
    RegionFits(width, height, dirty, false);
    hide FromDirtyRect, U32;
    WrapTwice(RowStart(r.y, r.bytesPerRow), r.x * 4);
    PixelFurther(AtLeast1(width), 0, 0, r.x, r.y);
  }

  lemma OffsetFormula(width: u16, height: u16, dirty: Rect)
    ensures var r := FromDirtyRect(width, height, dirty, false); r.offset == U32(U32(RowStart(r.y, r.bytesPerRow)) + r.x * 4)
  {
    hide U32, RowStart;
  }

  /** The 32-bit offset is right for every dirty rectangle exactly when the frame's byte size is at
      most 2^32. */
  lemma OffsetsExactIff(width: u16, height: u16)
    ensures (forall dirty :: OffsetExact(width, height, dirty)) <==> AtLeast1(width) * AtLeast1(height) * 4 <= U32_LIMIT
  {
    var w, h := AtLeast1(width), AtLeast1(height);
    if w * h * 4 <= U32_LIMIT {
      forall dirty ensures OffsetExact(width, height, dirty) {
        OffsetExactIfSmall(width, height, dirty);
      }
    } else {
      var corner := Rect(w - 1, h - 1, w - 1, h - 1);
      OffsetIsWrapped(width, height, corner);
      assert PixelAt(w, w - 1, h - 1) == w * h * 4 - 4;
      assert !OffsetExact(width, height, corner);
    }
  }

  lemma OffsetExactIfSmall(width: u16, height: u16, dirty: Rect)
    requires AtLeast1(width) * AtLeast1(height) * 4 <= U32_LIMIT
    ensures OffsetExact(width, height, dirty)
  {
    OffsetIsWrapped(width, height, dirty);
    RegionFits(width, height, dirty, false);
    var r := FromDirtyRect(width, height, dirty, false);
    hide FromDirtyRect, PixelAt, AtLeast1;
    PixelInFrame(AtLeast1(width), AtLeast1(height), r.x, r.y);
  }

  /** Negotiated desktops are at most 8192 by 8192, well within the bound. */
  lemma DesktopSizesAreSmall(width: u16, height: u16)
    requires width <= 8192 && height <= 8192
    ensures AtLeast1(width) * AtLeast1(height) * 4 <= U32_LIMIT
  {
    hide AtLeast1;
    assert 1 <= AtLeast1(width) <= 8192 && 1 <= AtLeast1(height) <= 8192 by {
      SizeBounds(width);
      SizeBounds(height);
    }
    Products(AtLeast1(width), AtLeast1(height), 8192);
  }

  lemma SizeBounds(n: u16)
    requires n <= 8192
    ensures 1 <= AtLeast1(n) <= 8192
  {
  }

  lemma Products(a: nat, b: nat, bound: nat)
    requires a <= bound && b <= bound
    ensures a * b <= bound * bound
  {
    assert a * b <= bound * b;
  }

  // ---- Frames and textures ----

  datatype Pixel = Pixel(b0: byte, b1: byte, b2: byte, b3: byte)

  datatype Frame = Frame(width: u16, height: u16, dirty: Rect, pixels: seq<byte>)

  datatype Texture = Texture(width: u16, height: u16, rows: seq<seq<Pixel>>)

  function ReadPixel(pixels: seq<byte>, at: nat): Pixel {
    if at + 4 <= |pixels| then Pixel(pixels[at], pixels[at + 1], pixels[at + 2], pixels[at + 3]) else Pixel(0, 0, 0, 0)
  }

  function FrameTexture(f: Frame): Texture {
    Texture(f.width, f.height,
      seq(f.height, y requires 0 <= y < f.height =>
        seq(f.width, x requires 0 <= x < f.width => ReadPixel(f.pixels, PixelAt(f.width, x, y)))))
  }

  /** Pixel by pixel, the texture of a frame is its buffer, four bytes each, row after row. */
  lemma PictureIsPixels(f: Frame, x: nat, y: nat)
    requires x < f.width && y < f.height && |f.pixels| >= f.width * f.height * 4
    ensures var t, at := FrameTexture(f), 4 * (y * f.width + x);
      && t.width == f.width && |t.rows| == t.height == f.height && |t.rows[y]| == f.width
      && at + 4 <= |f.pixels|
      && t.rows[y][x] == Pixel(f.pixels[at], f.pixels[at + 1], f.pixels[at + 2], f.pixels[at + 3])
  {
    PixelInFrame(f.width, f.height, x, y);
  }

  ghost predicate Shaped(t: Texture) {
    |t.rows| == t.height && forall y :: 0 <= y < t.height ==> |t.rows[y]| == t.width
  }

  function Blank(width: u16, height: u16): Texture {
    Texture(width, height, seq(height, y => seq(width, x => Pixel(0, 0, 0, 0))))
  }

  /** One row of a texture after copying a region from a buffer. */
  function RowWritten(row: seq<Pixel>, y: nat, r: Region, pixels: seq<byte>): seq<Pixel> {
    seq(|row|, x requires 0 <= x < |row| =>
      if Covers(r, x, y) then ReadPixel(pixels, r.offset + (y - r.y) * r.bytesPerRow + (x - r.x) * 4) else row[x])
  }

  function Written(t: Texture, r: Region, pixels: seq<byte>): Texture {
    t.(rows := seq(|t.rows|, y requires 0 <= y < |t.rows| => RowWritten(t.rows[y], y, r, pixels)))
  }

  ghost predicate Complete(f: Frame) {
    f.width >= 1 && f.height >= 1 && |f.pixels| >= f.width * f.height * 4 && f.width * f.height * 4 <= U32_LIMIT
  }

  /** Same-size frames may differ only inside the later one's dirty rectangle. */
  ghost predicate ChangedInside(prev: Frame, next: Frame) {
    prev.width == next.width && prev.height == next.height ==>
      forall x, y :: 0 <= x < next.width && 0 <= y < next.height && !InRect(next.dirty, x, y) ==>
        ReadPixel(next.pixels, PixelAt(next.width, x, y)) == ReadPixel(prev.pixels, PixelAt(next.width, x, y))
  }

  /** A region is read from where its pixels are, inside the buffer. */
  lemma RegionSource(f: Frame, full: bool, x: nat, y: nat)
    requires Complete(f) && x < f.width && y < f.height
    requires Covers(FromDirtyRect(f.width, f.height, f.dirty, full), x, y)
    ensures var r := FromDirtyRect(f.width, f.height, f.dirty, full);
      && r.offset + (y - r.y) * r.bytesPerRow + (x - r.x) * 4 == PixelAt(f.width, x, y)
      && PixelAt(f.width, x, y) + 4 <= |f.pixels|
  {
    var r := FromDirtyRect(f.width, f.height, f.dirty, full);
    RegionFits(f.width, f.height, f.dirty, full);
    OffsetExactIfSmall(f.width, f.height, f.dirty);
    assert r.offset == PixelAt(f.width, r.x, r.y);
    hide FromDirtyRect, PixelAt;
    PixelInFrame(f.width, f.height, x, y);
    PixelFurther(f.width, r.x, r.y, x - r.x, y - r.y);
  }

  lemma PixelWritten(t: Texture, f: Frame, full: bool, x: nat, y: nat)
    requires Complete(f) && Shaped(t) && t.width == f.width && t.height == f.height && x < f.width && y < f.height
    ensures var r := FromDirtyRect(f.width, f.height, f.dirty, full);
      Written(t, r, f.pixels).rows[y][x] == if Covers(r, x, y) then FrameTexture(f).rows[y][x] else t.rows[y][x]
  {
    var r := FromDirtyRect(f.width, f.height, f.dirty, full);
    RegionFits(f.width, f.height, f.dirty, full);
    if Covers(r, x, y) {
      RegionSource(f, full, x, y);
    }
  }

  /** A texture becomes the frame when every pixel outside the region is the frame's already. */
  lemma WrittenIsFrame(t: Texture, f: Frame, full: bool)
    requires Complete(f) && Shaped(t) && t.width == f.width && t.height == f.height
    requires var r := FromDirtyRect(f.width, f.height, f.dirty, full);
      forall x, y :: 0 <= x < f.width && 0 <= y < f.height && !Covers(r, x, y) ==> t.rows[y][x] == FrameTexture(f).rows[y][x]
    ensures Written(t, FromDirtyRect(f.width, f.height, f.dirty, full), f.pixels) == FrameTexture(f)
  {
    var t', goal := Written(t, FromDirtyRect(f.width, f.height, f.dirty, full), f.pixels), FrameTexture(f);
    forall y | 0 <= y < f.height ensures t'.rows[y] == goal.rows[y] {
      forall x | 0 <= x < f.width ensures t'.rows[y][x] == goal.rows[y][x] {
        PixelWritten(t, f, full, x, y);
      }
    }
  }

  /** Sending only the dirty rectangle turns the previous frame's texture into the next frame's. */
  lemma PartialUploadSuffices(prev: Frame, next: Frame)
    requires Complete(prev) && Complete(next) && ChangedInside(prev, next)
    requires prev.width == next.width && prev.height == next.height
    ensures var region := FromDirtyRect(next.width, next.height, next.dirty, false);
      Written(FrameTexture(prev), region, next.pixels) == FrameTexture(next)
  {
    RegionFits(next.width, next.height, next.dirty, false);
    hide FromDirtyRect, Covers;
    WrittenIsFrame(FrameTexture(prev), next, false);
  }

  /** A freshly created texture is initialised by a full upload. */
  lemma FullUploadSuffices(f: Frame)
    requires Complete(f)
    ensures Written(Blank(f.width, f.height), FromDirtyRect(f.width, f.height, f.dirty, true), f.pixels) == FrameTexture(f)
  {
    RegionFits(f.width, f.height, f.dirty, true);
    hide FromDirtyRect, Covers;
    WrittenIsFrame(Blank(f.width, f.height), f, true);
  }
}
