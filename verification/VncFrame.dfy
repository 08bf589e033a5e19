/** The VNC framebuffer: clipped raw and copy rectangles (sections 7.7.1 and 7.7.2 of RFC 6143) in one
    flat buffer, resizes (section 7.8.2), and a reader that polls by sequence number. */
module VncFrame {
  import opened Basics

  const MAX_FRAME_BYTES: nat := 2560 * 1600 * 4

  datatype Rect = Rect(x: u16, y: u16, width: u16, height: u16)

  /** The screen as a value: rows of `width` pixels of four bytes. */
  datatype Screen = Screen(width: nat, height: nat, frame: seq<byte>)

  ghost predicate Valid(v: Screen) {
    |v.frame| == v.width * v.height * 4 <= MAX_FRAME_BYTES
  }

  /** Where pixel (x, y) starts. */
  function At(width: nat, x: nat, y: nat): nat {
    (y * width + x) * 4
  }

  /** A buffer of `size` bytes holds `height` rows of `width` pixels. */
  predicate Holds(size: nat, width: nat, height: nat) {
    width * height * 4 <= size
  }

  /** A run of `n` pixels that fits its row fits a buffer of at least `height` rows. */
  lemma RunInside(size: nat, width: nat, height: nat, x: nat, y: nat, n: nat)
    requires Holds(size, width, height) && x + n <= width && y < height
    ensures At(width, x, y) + n * 4 <= size
  {
    assert (y + 1) * width <= height * width;
  }

  /** A byte of pixel (px, py) lies in the run of `n` pixels at (x, y) exactly when the pixel does. */
  lemma RunHolds(width: nat, x: nat, y: nat, n: nat, px: nat, py: nat, c: nat)
    requires x + n <= width && px < width && c < 4
    ensures At(width, x, y) <= At(width, px, py) + c < At(width, x, y) + n * 4 <==> py == y && x <= px < x + n
    ensures py == y ==> At(width, px, py) + c - At(width, x, y) == (px - x) * 4 + c
  {
    if py < y {
      assert (py + 1) * width <= y * width;
    } else if py > y {
      assert (y + 1) * width <= py * width;
    }
  }

  function PutRow(frame: seq<byte>, at: nat, row: seq<byte>): (r: seq<byte>)
    ensures |r| == |frame|
  {
    if at + |row| <= |frame| then frame[..at] + row + frame[at + |row|..] else frame
  }

  /** Rows of bytes placed one below the other, the first at pixel (x, y). */
  function Blit(frame: seq<byte>, width: nat, x: nat, y: nat, rows: seq<seq<byte>>): (r: seq<byte>)
    ensures |r| == |frame|
  {
    if rows == [] then frame else
      var last := |rows| - 1;
      PutRow(Blit(frame, width, x, y, rows[..last]), At(width, x, y + last), rows[last])
  }

  lemma BlitNone(frame: seq<byte>, width: nat, x: nat, y: nat, rows: seq<seq<byte>>)
    ensures Blit(frame, width, x, y, rows[..0]) == frame
  {
  }

  lemma BlitNext(frame: seq<byte>, width: nat, x: nat, y: nat, rows: seq<seq<byte>>, row: nat)
    requires row < |rows|
    ensures Blit(frame, width, x, y, rows[..row + 1]) ==
      PutRow(Blit(frame, width, x, y, rows[..row]), At(width, x, y + row), rows[row])
  {
    assert rows[..row + 1][..row] == rows[..row];
    hide At, PutRow;
  }

  ghost predicate RowsOf(rows: seq<seq<byte>>, pixels: nat) {
    forall i :: 0 <= i < |rows| ==> |rows[i]| == pixels * 4
  }

  lemma PutRowByte(frame: seq<byte>, at: nat, row: seq<byte>, k: nat)
    requires at + |row| <= |frame| && k < |frame|
    ensures PutRow(frame, at, row)[k] == if at <= k < at + |row| then row[k - at] else frame[k]
  {
  }

  /** A blit changes the pixels of its rectangle and no other byte. */
  lemma {:induction false} BlitPixel(v: Screen, x: nat, y: nat, n: nat, rows: seq<seq<byte>>, px: nat, py: nat, c: nat)
    requires |v.frame| == v.width * v.height * 4 && RowsOf(rows, n) && x + n <= v.width && y + |rows| <= v.height
    requires px < v.width && py < v.height && c < 4
    ensures At(v.width, px, py) + c < |v.frame|
    ensures Blit(v.frame, v.width, x, y, rows)[At(v.width, px, py) + c] ==
      if x <= px < x + n && y <= py < y + |rows| then rows[py - y][(px - x) * 4 + c] else v.frame[At(v.width, px, py) + c]
    decreases |rows|
  {
    hide At, PutRow;
    RunInside(|v.frame|, v.width, v.height, px, py, 1);
    if rows != [] {
      var last := |rows| - 1;
      BlitPixel(v, x, y, n, rows[..last], px, py, c);
      RunInside(|v.frame|, v.width, v.height, x, y + last, n);
      RunHolds(v.width, x, y + last, n, px, py, c);
      PutRowByte(Blit(v.frame, v.width, x, y, rows[..last]), At(v.width, x, y + last), rows[last], At(v.width, px, py) + c);
    }
  }

  function Slice(s: seq<byte>, at: nat, n: nat): seq<byte> {
    if at + n <= |s| then s[at..at + n] else []
  }

  /** `count` runs of `n` pixels of a buffer, one below the other, the first at (x, y). */
  function Runs(buffer: seq<byte>, width: nat, x: nat, y: nat, n: nat, count: nat): (rows: seq<seq<byte>>)
    ensures |rows| == count
  {
    seq(count, i requires 0 <= i < count => Slice(buffer, At(width, x, y + i), n * 4))
  }

  lemma RunAt(buffer: seq<byte>, width: nat, height: nat, x: nat, y: nat, n: nat, count: nat, row: nat)
    requires Holds(|buffer|, width, height) && x + n <= width && y + count <= height && row < count
    ensures At(width, x, y + row) + n * 4 <= |buffer|
    ensures Runs(buffer, width, x, y, n, count)[row] == buffer[At(width, x, y + row)..At(width, x, y + row) + n * 4]
  {
    RunInside(|buffer|, width, height, x, y + row, n);
    var at := At(width, x, y + row);
    assert Runs(buffer, width, x, y, n, count)[row] == Slice(buffer, at, n * 4);
    hide At, Runs;
  }

  lemma RunsFit(buffer: seq<byte>, width: nat, height: nat, x: nat, y: nat, n: nat, count: nat)
    requires Holds(|buffer|, width, height) && x + n <= width && y + count <= height
    ensures RowsOf(Runs(buffer, width, x, y, n, count), n)
  {
    hide At, Runs;
    forall i | 0 <= i < count ensures |Runs(buffer, width, x, y, n, count)[i]| == n * 4 {
      RunAt(buffer, width, height, x, y, n, count, i);
    }
  }

  lemma RunsPixel(buffer: seq<byte>, width: nat, height: nat, x: nat, y: nat, n: nat, count: nat, px: nat, py: nat, c: nat)
    requires Holds(|buffer|, width, height) && x + n <= width && y + count <= height
    requires px < n && py < count && c < 4
    ensures At(width, px + x, py + y) + c < |buffer|
    ensures Slice(buffer, At(width, x, y + py), n * 4) == Runs(buffer, width, x, y, n, count)[py]
    ensures |Slice(buffer, At(width, x, y + py), n * 4)| == n * 4
    ensures Slice(buffer, At(width, x, y + py), n * 4)[px * 4 + c] == buffer[At(width, px + x, py + y) + c]
  {
    RunInside(|buffer|, width, height, x, y + py, n);
    assert At(width, px + x, py + y) + c == At(width, x, y + py) + (px * 4 + c);
  }

  /** Runs of one buffer blitted onto a screen: every pixel of the destination rectangle is the pixel at
      the same place of the source rectangle, every other pixel is kept. */
  lemma BlitRuns(v: Screen, x: nat, y: nat, n: nat, count: nat, buffer: seq<byte>, width: nat, height: nat, sx: nat, sy: nat,
                 px: nat, py: nat, c: nat)
    requires |v.frame| == v.width * v.height * 4 && x + n <= v.width && y + count <= v.height
    requires Holds(|buffer|, width, height) && sx + n <= width && sy + count <= height
    requires px < v.width && py < v.height && c < 4
    ensures At(v.width, px, py) + c < |v.frame|
    ensures var inside := x <= px < x + n && y <= py < y + count;
      && (inside ==> At(width, px - x + sx, py - y + sy) + c < |buffer|)
      && Blit(v.frame, v.width, x, y, Runs(buffer, width, sx, sy, n, count))[At(v.width, px, py) + c] ==
         if inside then buffer[At(width, px - x + sx, py - y + sy) + c] else v.frame[At(v.width, px, py) + c]
  {
    hide Blit, Runs, At, RowsOf, Slice;
    RunsFit(buffer, width, height, sx, sy, n, count);
    BlitPixel(v, x, y, n, Runs(buffer, width, sx, sy, n, count), px, py, c);
    if x <= px < x + n && y <= py < y + count {
      RunsPixel(buffer, width, height, sx, sy, n, count, px - x, py - y, c);
    }
  }

  // ---- The three changes a server can make ----

  /** A resize keeps the leading bytes and zero-fills the rest. */
  function Resized(frame: seq<byte>, n: nat): (r: seq<byte>)
    ensures |r| == n
    ensures forall k :: 0 <= k < n ==> r[k] == if k < |frame| then frame[k] else 0
  {
    if n <= |frame| then frame[..n] else frame + seq(n - |frame|, _ => 0)
  }

  predicate Resizable(width: u16, height: u16) {
    width * height * 4 <= MAX_FRAME_BYTES
  }

  predicate Applicable(v: Screen, r: Rect, pixels: nat) {
    v.width != 0 && v.height != 0 && r.x < v.width && r.y < v.height && r.width * r.height * 4 <= pixels
  }

  /** The visible part of an image placed at the rectangle. */
  function Painted(v: Screen, r: Rect, pixels: seq<byte>): Screen
    requires Applicable(v, r, |pixels|)
  {
    var n, count := Min(r.width, v.width - r.x), Min(r.height, v.height - r.y);
    v.(frame := Blit(v.frame, v.width, r.x, r.y, Runs(pixels, r.width, 0, 0, n, count)))
  }

  function CopyWidth(v: Screen, to: Rect, from: Rect): nat
    requires from.x < v.width && to.x < v.width
  {
    Min(Min(from.width, v.width - from.x), v.width - to.x)
  }

  function CopyHeight(v: Screen, to: Rect, from: Rect): nat
    requires from.y < v.height && to.y < v.height
  {
    Min(Min(from.height, v.height - from.y), v.height - to.y)
  }

  predicate Copyable(v: Screen, to: Rect, from: Rect) {
    from.x < v.width && from.y < v.height && to.x < v.width && to.y < v.height &&
    CopyWidth(v, to, from) != 0 && CopyHeight(v, to, from) != 0
  }

  function Copied(v: Screen, to: Rect, from: Rect): Screen
    requires Copyable(v, to, from)
  {
    v.(frame := Blit(v.frame, v.width, to.x, to.y,
                     Runs(v.frame, v.width, from.x, from.y, CopyWidth(v, to, from), CopyHeight(v, to, from))))
  }

  predicate OnScreen(v: Screen, x: int, y: int) {
    0 <= x < v.width && 0 <= y < v.height
  }

  /** A raw rectangle is drawn when its corner is on the screen and its image is all there. */
  lemma ApplicableIff(v: Screen, r: Rect, pixels: nat)
    ensures Applicable(v, r, pixels) <==> OnScreen(v, r.x, r.y) && pixels >= 4 * (r.width * r.height)
  {
  }

  /** A raw rectangle changes exactly the pixels of its visible part, each to its own pixel of the image. */
  lemma PaintedPixel(v: Screen, r: Rect, pixels: seq<byte>, x: nat, y: nat, c: nat)
    requires Valid(v) && Applicable(v, r, |pixels|) && x < v.width && y < v.height && c < 4
    ensures Valid(Painted(v, r, pixels)) && At(v.width, x, y) + c < |v.frame|
    ensures var inside := r.x <= x < r.x + r.width && r.y <= y < r.y + r.height;
      && (inside ==> At(r.width, x - r.x, y - r.y) + c < |pixels|)
      && Painted(v, r, pixels).frame[At(v.width, x, y) + c] ==
         if inside then pixels[At(r.width, x - r.x, y - r.y) + c] else v.frame[At(v.width, x, y) + c]
  {
    var n, count := Min(r.width, v.width - r.x), Min(r.height, v.height - r.y);
    hide Blit, Runs, At;
    BlitRuns(v, r.x, r.y, n, count, pixels, r.width, r.height, 0, 0, x, y, c);
  }

  /** The pixel at this offset has its source and its destination on the screen. */
  predicate Moves(v: Screen, to: Rect, from: Rect, dx: int, dy: int) {
    && 0 <= dx < from.width && 0 <= dy < from.height
    && OnScreen(v, from.x + dx, from.y + dy) && OnScreen(v, to.x + dx, to.y + dy)
  }

  /** A copy is accepted exactly when there is a pixel to copy. */
  lemma CopyableIff(v: Screen, to: Rect, from: Rect)
    ensures Copyable(v, to, from) <==> exists dx, dy :: Moves(v, to, from, dx, dy)
  {
    if Copyable(v, to, from) {
      assert Moves(v, to, from, 0, 0);
    }
  }

  /** A copy rectangle changes exactly the pixels whose offset has source and destination on the screen,
      each to the old source pixel, however the two overlap. */
  lemma CopiedPixel(v: Screen, to: Rect, from: Rect, x: nat, y: nat, c: nat)
    requires Valid(v) && Copyable(v, to, from) && x < v.width && y < v.height && c < 4
    ensures Valid(Copied(v, to, from)) && At(v.width, x, y) + c < |v.frame|
    ensures var moved := Moves(v, to, from, x - to.x, y - to.y);
      && (moved ==> At(v.width, from.x + x - to.x, from.y + y - to.y) + c < |v.frame|)
      && Copied(v, to, from).frame[At(v.width, x, y) + c] ==
         if moved then v.frame[At(v.width, from.x + x - to.x, from.y + y - to.y) + c] else v.frame[At(v.width, x, y) + c]
  {
    var n, count := CopyWidth(v, to, from), CopyHeight(v, to, from);
    hide Blit, Runs, At;
    BlitRuns(v, to.x, to.y, n, count, v.frame, v.width, v.height, from.x, from.y, x, y, c);
    CopySize(v, to, from, x, y);
  }

  lemma CopySize(v: Screen, to: Rect, from: Rect, x: nat, y: nat)
    requires Copyable(v, to, from) && x < v.width && y < v.height
    ensures Moves(v, to, from, x - to.x, y - to.y) <==>
      to.x <= x < to.x + CopyWidth(v, to, from) && to.y <= y < to.y + CopyHeight(v, to, from)
  {
  }

  // ---- What a change leaves on the whole screen ----

  function Byte(v: Screen, x: nat, y: nat, c: nat): byte {
    if At(v.width, x, y) + c < |v.frame| then v.frame[At(v.width, x, y) + c] else 0
  }

  ghost predicate SameSize(v: Screen, v': Screen) {
    v'.width == v.width && v'.height == v.height && |v'.frame| == |v.frame|
  }

  /** `v'` is `v` with the image drawn at the rectangle. */
  ghost predicate Shows(v: Screen, v': Screen, r: Rect, pixels: seq<byte>) {
    SameSize(v, v') && forall x: nat, y: nat, c: nat :: x < v.width && y < v.height && c < 4 ==>
      Byte(v', x, y, c) ==
        if r.x <= x < r.x + r.width && r.y <= y < r.y + r.height
        then Byte(Screen(r.width, r.height, pixels), x - r.x, y - r.y, c) else Byte(v, x, y, c)
  }

  /** `v'` is `v` with the pixels at `from` copied to `to`. */
  ghost predicate Moved(v: Screen, v': Screen, to: Rect, from: Rect) {
    SameSize(v, v') && forall x: nat, y: nat, c: nat :: x < v.width && y < v.height && c < 4 ==>
      Byte(v', x, y, c) == ByteMoved(v, to, from, x, y, c)
  }

  function ByteMoved(v: Screen, to: Rect, from: Rect, x: nat, y: nat, c: nat): byte {
    if Moves(v, to, from, x - to.x, y - to.y) then Byte(v, from.x + x - to.x, from.y + y - to.y, c) else Byte(v, x, y, c)
  }

  lemma PaintedShows(v: Screen, r: Rect, pixels: seq<byte>)
    requires Valid(v) && Applicable(v, r, |pixels|)
    ensures Valid(Painted(v, r, pixels)) && Shows(v, Painted(v, r, pixels), r, pixels)
  {
    var v' := Painted(v, r, pixels);
    assert SameSize(v, v');
    hide Painted, SameSize, At, Applicable;
    forall x: nat, y: nat, c: nat | x < v.width && y < v.height && c < 4
      ensures Byte(v', x, y, c) ==
        if r.x <= x < r.x + r.width && r.y <= y < r.y + r.height
        then Byte(Screen(r.width, r.height, pixels), x - r.x, y - r.y, c) else Byte(v, x, y, c)
    {
      PaintedPixel(v, r, pixels, x, y, c);
    }
    hide Byte;
  }

  lemma CopiedMoved(v: Screen, to: Rect, from: Rect)
    requires Valid(v) && Copyable(v, to, from)
    ensures Valid(Copied(v, to, from)) && Moved(v, Copied(v, to, from), to, from)
  {
    var v' := Copied(v, to, from);
    hide Copied, At, Copyable, Byte, ByteMoved;
    CopiedPixel(v, to, from, 0, 0, 0);
    forall x: nat, y: nat, c: nat | x < v.width && y < v.height && c < 4
      ensures Byte(v', x, y, c) == ByteMoved(v, to, from, x, y, c)
    {
      CopiedByte(v, to, from, x, y, c);
    }
  }

  lemma CopiedByte(v: Screen, to: Rect, from: Rect, x: nat, y: nat, c: nat)
    requires Valid(v) && Copyable(v, to, from) && x < v.width && y < v.height && c < 4
    ensures Byte(Copied(v, to, from), x, y, c) == ByteMoved(v, to, from, x, y, c)
  {
    var v' := Copied(v, to, from);
    assert v'.width == v.width && |v'.frame| == |v.frame|;
    CopiedPixel(v, to, from, x, y, c);
    hide *;
    assert Byte(v', x, y, c) == v'.frame[At(v.width, x, y) + c] by {
      ByteAt(v', x, y, c);
    }
    ByteMovedAt(v, to, from, x, y, c);
  }

  lemma ByteAt(v: Screen, x: nat, y: nat, c: nat)
    ensures At(v.width, x, y) + c < |v.frame| ==> Byte(v, x, y, c) == v.frame[At(v.width, x, y) + c]
  {
    hide At;
  }

  lemma ByteMovedAt(v: Screen, to: Rect, from: Rect, x: nat, y: nat, c: nat)
    requires At(v.width, x, y) + c < |v.frame|
    ensures Moves(v, to, from, x - to.x, y - to.y) && At(v.width, from.x + x - to.x, from.y + y - to.y) + c < |v.frame| ==>
      ByteMoved(v, to, from, x, y, c) == v.frame[At(v.width, from.x + x - to.x, from.y + y - to.y) + c]
    ensures !Moves(v, to, from, x - to.x, y - to.y) ==>
      ByteMoved(v, to, from, x, y, c) == v.frame[At(v.width, x, y) + c]
  {
    hide At;
  }

  // ---- The session's buffer, changed in place ----

  class VncSession {
    var width: nat
    var height: nat
    var frame: array<byte>

    ghost predicate Sound()
      reads this, frame
    {
      Valid(Value())
    }

    ghost function Value(): Screen
      reads this, frame
    {
      Screen(width, height, frame[..])
    }

    constructor ()
      ensures Sound() && fresh(frame) && Value() == Screen(0, 0, [])
    {
      width, height := 0, 0;
      frame := new byte[0];
    }

    /** Accepts a size within the cap; the buffer is resized without regard to rows. */
    method SetResolution(w: u16, h: u16) returns (ok: bool)
      requires Sound()
      modifies this
      ensures Sound() && (frame == old(frame) || fresh(frame))
      ensures ok == Resizable(w, h)
      ensures Value() == if ok then Screen(w, h, Resized(old(frame[..]), w * h * 4)) else old(Value())
    {
      var bytes := w * h * 4;
      if bytes > MAX_FRAME_BYTES {
        return false;
      }
      width, height := w, h;
      var kept := frame;
      frame := new byte[bytes](i requires 0 <= i < bytes reads kept => if i < kept.Length then kept[i] else 0);
      assert frame[..] == Resized(old(frame[..]), bytes);
      ok := true;
    }

    /** One row of bytes written in place. */
    method WriteRow(at: nat, row: seq<byte>)
      requires at + |row| <= frame.Length
      modifies frame
      ensures frame[..] == PutRow(old(frame[..]), at, row)
    {
      forall k | 0 <= k < |row| {
        frame[at + k] := row[k];
      }
      assert frame[..at] == old(frame[..at]) && frame[at..at + |row|] == row && frame[at + |row|..] == old(frame[at + |row|..]);
      assert frame[..] == frame[..at] + frame[at..at + |row|] + frame[at + |row|..];
    }

    /** Writes one of them. */
    method WriteImageRow(x: nat, y: nat, n: nat, count: nat, pixels: seq<byte>, imageWidth: nat, imageHeight: nat, row: nat)
      requires Holds(frame.Length, width, height) && x + n <= width && y + count <= height && row < count
      requires Holds(|pixels|, imageWidth, imageHeight) && n <= imageWidth && count <= imageHeight
      modifies frame
      ensures frame[..] == PutRow(old(frame[..]), At(width, x, y + row), Runs(pixels, imageWidth, 0, 0, n, count)[row])
    {
      hide At, PutRow, Runs, Holds;
      RunAt(pixels, imageWidth, imageHeight, 0, 0, n, count, row);
      RunInside(frame.Length, width, height, x, y + row, n);
      var source := At(imageWidth, 0, row);
      WriteRow(At(width, x, y + row), pixels[source..source + n * 4]);
    }

    /** Writes the leading `count` rows of an image, cut to `n` pixels, at pixel (x, y). */
    method WriteImage(x: nat, y: nat, n: nat, count: nat, pixels: seq<byte>, imageWidth: nat, imageHeight: nat)
      requires Sound() && x + n <= width && y + count <= height
      requires Holds(|pixels|, imageWidth, imageHeight) && n <= imageWidth && count <= imageHeight
      modifies frame
      ensures frame[..] == Blit(old(frame[..]), width, x, y, Runs(pixels, imageWidth, 0, 0, n, count))
    {
      ghost var before, rows := frame[..], Runs(pixels, imageWidth, 0, 0, n, count);
      assert Holds(frame.Length, width, height);
      hide At, Blit, PutRow, Runs, Holds, Valid;
      BlitNone(before, width, x, y, rows);
      for row := 0 to count
        invariant frame[..] == Blit(before, width, x, y, rows[..row])
      {
        WriteImageRow(x, y, n, count, pixels, imageWidth, imageHeight, row);
        BlitNext(before, width, x, y, rows, row);
      }
      assert rows[..count] == rows;
    }

    method ApplyRect(r: Rect, pixels: seq<byte>) returns (ok: bool)
      requires Sound()
      modifies frame
      ensures Sound()
      ensures ok == Applicable(old(Value()), r, |pixels|)
      ensures ok <==> OnScreen(old(Value()), r.x, r.y) && |pixels| >= 4 * (r.width * r.height)
      ensures Value() == if ok then Painted(old(Value()), r, pixels) else old(Value())
      ensures ok ==> Shows(old(Value()), Value(), r, pixels)
    {
      ApplicableIff(Value(), r, |pixels|);
      if Applicable(Value(), r, |pixels|) {
        PaintedShows(Value(), r, pixels);
      }
      hide Shows;
      if width == 0 || height == 0 || r.x >= width || r.y >= height || |pixels| < r.width * r.height * 4 {
        return false;
      }
      var copyWidth, copyHeight := Min(r.width, width - r.x), Min(r.height, height - r.y);
      hide Blit, Runs;
      WriteImage(r.x, r.y, copyWidth, copyHeight, pixels, r.width, r.height);
      ok := true;
    }

    /** Saves rows of the frame, top row first. */
    method SaveRows(x: nat, y: nat, n: nat, count: nat) returns (rows: seq<seq<byte>>)
      requires Sound() && x + n <= width && y + count <= height
      ensures rows == Runs(frame[..], width, x, y, n, count)
    {
      ghost var all := Runs(frame[..], width, x, y, n, count);
      hide At, Runs;
      rows := [];
      for row := 0 to count
        invariant rows == all[..row]
      {
        RunAt(frame[..], width, height, x, y, n, count, row);
        var source := At(width, x, y + row);
        rows := rows + [frame[source..source + n * 4]];
      }
      assert all[..count] == all;
    }

    /** Writes saved rows back, one below the other. */
    method WriteRows(x: nat, y: nat, n: nat, rows: seq<seq<byte>>)
      requires Sound() && RowsOf(rows, n) && x + n <= width && y + |rows| <= height
      modifies frame
      ensures frame[..] == Blit(old(frame[..]), width, x, y, rows)
    {
      ghost var before := frame[..];
      for row := 0 to |rows|
        invariant frame[..] == Blit(before, width, x, y, rows[..row])
      {
        hide At, Blit, PutRow;
        RunInside(frame.Length, width, height, x, y + row, n);
        WriteRow(At(width, x, y + row), rows[row]);
        BlitNext(before, width, x, y, rows, row);
      }
      assert rows[..|rows|] == rows;
    }

    /** The source is saved first, so overlapping rectangles do not disturb each other. */
    method CopyRect(to: Rect, from: Rect) returns (ok: bool)
      requires Sound()
      modifies frame
      ensures Sound()
      ensures ok == Copyable(old(Value()), to, from)
      ensures ok <==> exists dx, dy :: Moves(old(Value()), to, from, dx, dy)
      ensures Value() == if ok then Copied(old(Value()), to, from) else old(Value())
      ensures ok ==> Moved(old(Value()), Value(), to, from)
    {
      CopyableIff(Value(), to, from);
      if Copyable(Value(), to, from) {
        CopiedMoved(Value(), to, from);
      }
      hide Moved, Moves;
      if from.x >= width || from.y >= height || to.x >= width || to.y >= height {
        return false;
      }
      var copyWidth := Min(Min(from.width, width - from.x), width - to.x);
      var copyHeight := Min(Min(from.height, height - from.y), height - to.y);
      if copyWidth == 0 || copyHeight == 0 {
        return false;
      }
      hide Blit, Runs;
      var temporary := SaveRows(from.x, from.y, copyWidth, copyHeight);
      RunsFit(frame[..], width, height, from.x, from.y, copyWidth, copyHeight);
      WriteRows(to.x, to.y, copyWidth, temporary);
      ok := true;
    }
  }
}
