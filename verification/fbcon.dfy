/** The framebuffer text console (kernel/src/fbcon.rs): pixel writes and one big
    memory move, proved to draw a grid of characters that wraps and scrolls. */
module FbConsoles {
  import opened Prelude
  import opened Words

  const FONT_W: nat := 8
  const FONT_H: nat := 8

  /** Eight rows of eight pixels, most significant bit leftmost. */
  type Glyph = g: seq<Byte> | |g| == FONT_H witness seq(FONT_H, _ => 0)

  datatype Format = Rgb | Bgr | Grey | Other

  datatype Colour = Colour(r: Byte, g: Byte, b: Byte)

  function Foreground(): Colour { Colour(0xAA, 0xAA, 0xAA) }
  function Background(): Colour { Colour(0, 0, 0) }

  function Luminance(c: Colour): (l: Byte)
    ensures c.r == c.g == c.b ==> l == c.r
  {
    (c.r * 77 + c.g * 150 + c.b * 29) / 256
  }

  /** The bytes of one pixel, before cutting to the pixel size. */
  function Packed(f: Format, c: Colour): (px: seq<Byte>)
    ensures |px| == 4
  {
    match f
    case Rgb => [c.r, c.g, c.b, 0]
    case Bgr => [c.b, c.g, c.r, 0]
    case Grey => [Luminance(c), 0, 0, 0]
    case Other => [0, 0, 0, 0]
  }

  // ----- the text the pixels stand for -----

  /** One line of characters, `None` where nothing has been drawn, and the pixel row
      it starts at, which is above the screen once it has scrolled away. */
  datatype Line = Line(top: int, cells: seq<Option<Byte>>)

  /** The lines written, from the top down, with the cursor on the last. */
  datatype Text = Text(lines: seq<Line>, col: nat)

  function BlankRow(cols: nat): (r: seq<Option<Byte>>)
    ensures |r| == cols
  {
    seq(cols, _ => None)
  }

  function BlankText(cols: nat): Text {
    Text([Line(0, BlankRow(cols))], 0)
  }

  function Last(lines: seq<Line>): Line
    requires lines != []
  {
    lines[|lines| - 1]
  }

  /** No two lines share a pixel row, and the last one is wholly on the screen. */
  predicate WellFormed(t: Text, height: nat, cols: nat) {
    && t.lines != [] && 0 < cols && t.col <= cols && 0 <= Last(t.lines).top <= height - FONT_H
    && Spaced(t.lines)
    && forall k :: 0 <= k < |t.lines| ==> |t.lines[k].cells| == cols
  }

  predicate Spaced(lines: seq<Line>) {
    forall j, k :: 0 <= j < k < |lines| ==> lines[j].top + FONT_H <= lines[k].top
  }

  function Raised(lines: seq<Line>): seq<Line> {
    seq(|lines|, k requires 0 <= k < |lines| => lines[k].(top := lines[k].top - FONT_H))
  }

  /** Next line; where there is no room for one, everything goes up a line and the
      next one is the last that fits. */
  function NewLine(t: Text, cols: nat, height: nat): Text
    requires t.lines != []
  {
    var below := Last(t.lines).top + FONT_H;
    if below + FONT_H <= height then Text(t.lines + [Line(below, BlankRow(cols))], 0)
    else Text(Raised(t.lines) + [Line(height - FONT_H, BlankRow(cols))], 0)
  }

  function Draw(t: Text, c: Byte): Text
    requires t.lines != [] && t.col < |Last(t.lines).cells|
  {
    var now := Last(t.lines);
    Text(t.lines[|t.lines| - 1 := now.(cells := now.cells[t.col := Some(c)])], t.col + 1)
  }

  /** One byte of output: newline, carriage return, or a character, wrapping first. */
  function Write(t: Text, cols: nat, height: nat, b: Byte): Text
    requires WellFormed(t, height, cols)
  {
    if b == 10 then NewLine(t, cols, height)
    else if b == 13 then t.(col := 0)
    else Draw(if t.col == cols then NewLine(t, cols, height) else t, b)
  }

  lemma WriteStaysWellFormed(t: Text, cols: nat, height: nat, b: Byte)
    requires WellFormed(t, height, cols)
    ensures WellFormed(NewLine(t, cols, height), height, cols) && WellFormed(Write(t, cols, height, b), height, cols)
  {
    NewLineStaysWellFormed(t, cols, height);
    hide NewLine, Spaced;
    if b != 10 && b != 13 {
      DrawStaysWellFormed(if t.col == cols then NewLine(t, cols, height) else t, cols, height, b);
    }
  }

  lemma NewLineStaysWellFormed(t: Text, cols: nat, height: nat)
    requires WellFormed(t, height, cols)
    ensures WellFormed(NewLine(t, cols, height), height, cols) && NewLine(t, cols, height).col == 0
  {
  }

  lemma DrawStaysWellFormed(t: Text, cols: nat, height: nat, b: Byte)
    requires WellFormed(t, height, cols) && t.col < cols
    ensures WellFormed(Draw(t, b), height, cols)
  {
  }

  function WriteAll(t: Text, cols: nat, height: nat, bytes: seq<Byte>): (r: Text)
    requires WellFormed(t, height, cols)
    ensures WellFormed(r, height, cols)
    decreases |bytes|
  {
    if bytes == [] then t
    else
      var before := WriteAll(t, cols, height, bytes[..|bytes| - 1]);
      WriteStaysWellFormed(before, cols, height, bytes[|bytes| - 1]);
      Write(before, cols, height, bytes[|bytes| - 1])
  }

  // ----- the grid -----

  /** Every line starts where the one above it ends. */
  predicate Even(lines: seq<Line>) {
    forall k :: 0 <= k < |lines| - 1 ==> lines[k + 1].top == lines[k].top + FONT_H
  }

  /** A new line keeps the lines evenly spaced exactly when it needs no scrolling or
      scrolls from the last line the screen has. */
  lemma NewLineKeepsGridExactly(t: Text, cols: nat, height: nat)
    requires WellFormed(t, height, cols) && Even(t.lines)
    ensures Even(NewLine(t, cols, height).lines)
            <==> Last(t.lines).top + 2 * FONT_H <= height || Last(t.lines).top == height - FONT_H
  {
    var n := |t.lines|;
    var after := NewLine(t, cols, height).lines;
    assert after[n].top == after[n - 1].top + FONT_H
           <==> Last(t.lines).top + 2 * FONT_H <= height || Last(t.lines).top == height - FONT_H;
    forall k | 0 <= k < n - 1 ensures after[k + 1].top == after[k].top + FONT_H {
      assert t.lines[k + 1].top == t.lines[k].top + FONT_H;
    }
  }

  predicate OnGrid(t: Text) {
    t.lines != [] && Even(t.lines) && Last(t.lines).top % FONT_H == 0
  }

  lemma WriteKeepsGrid(t: Text, cols: nat, height: nat, b: Byte)
    requires WellFormed(t, height, cols) && height % FONT_H == 0 && OnGrid(t)
    ensures OnGrid(Write(t, cols, height, b))
  {
    hide Spaced, Even, NewLine, Draw;
    NewLineKeepsGridExactly(t, cols, height);
    NewLineCursor(t, cols, height);
    WriteStaysWellFormed(t, cols, height, 10);
    assert OnGrid(NewLine(t, cols, height));
    if b != 10 && b != 13 {
      DrawKeepsGrid(if t.col == cols then NewLine(t, cols, height) else t, b);
    }
  }

  lemma DrawKeepsGrid(t: Text, b: Byte)
    requires OnGrid(t) && t.col < |Last(t.lines).cells|
    ensures OnGrid(Draw(t, b))
  {
    forall k | 0 <= k < |t.lines| - 1 ensures Draw(t, b).lines[k + 1].top == Draw(t, b).lines[k].top + FONT_H {
      assert t.lines[k + 1].top == t.lines[k].top + FONT_H;
    }
  }

  /** On a height of whole lines a cleared screen is a grid for ever. */
  lemma {:induction false} WholeLinesStayAGrid(cols: nat, height: nat, bytes: seq<Byte>)
    requires 0 < cols && FONT_H <= height && height % FONT_H == 0
    ensures WellFormed(BlankText(cols), height, cols)
    ensures OnGrid(WriteAll(BlankText(cols), cols, height, bytes))
    decreases |bytes|
  {
    if bytes != [] {
      hide OnGrid, Write;
      var n := |bytes| - 1;
      WholeLinesStayAGrid(cols, height, bytes[..n]);
      WriteKeepsGrid(WriteAll(BlankText(cols), cols, height, bytes[..n]), cols, height, bytes[n]);
    }
  }

  /** On any other, the first scroll leaves a gap: from the last line of the grid, the
      next is the height's remainder too low. */
  lemma FirstScrollLeavesAGap(t: Text, cols: nat, height: nat)
    requires WellFormed(t, height, cols) && Last(t.lines).top == (height / FONT_H - 1) * FONT_H
    ensures var after := NewLine(t, cols, height).lines;
      && |after| == |t.lines| + 1
      && after[|after| - 1].top == after[|after| - 2].top + FONT_H + height % FONT_H
  {
  }

  // ----- the pixels -----

  /** Bit `7 - dx` of a glyph row. */
  predicate Lit(bits: Byte, dx: nat)
    requires dx < FONT_W
  {
    bits / Pow2(7 - dx) % 2 == 1
  }

  predicate Covers(line: Line, y: nat) {
    line.top <= y < line.top + FONT_H
  }

  predicate LineInked(line: Line, glyph: Byte -> Glyph, x: nat, y: nat)
    requires Covers(line, y)
  {
    && x / FONT_W < |line.cells| && line.cells[x / FONT_W].Some?
    && Lit(glyph(line.cells[x / FONT_W].value)[y - line.top], x % FONT_W)
  }

  /** Is the pixel at (x, y) part of a drawn character? */
  predicate InkedIn(lines: seq<Line>, glyph: Byte -> Glyph, x: nat, y: nat) {
    if lines == [] then false
    else if Covers(Last(lines), y) then LineInked(Last(lines), glyph, x, y)
    else InkedIn(lines[..|lines| - 1], glyph, x, y)
  }

  predicate Inked(t: Text, glyph: Byte -> Glyph, x: nat, y: nat) {
    InkedIn(t.lines, glyph, x, y)
  }

  function Shade(on: bool): Colour { if on then Foreground() else Background() }

  class FbConsole {
    const buf: array<Byte>
    const width: nat
    const height: nat
    const stride: nat
    const bpp: nat
    const format: Format
    const glyph: Byte -> Glyph
    /** Cursor top-left, in pixels. */
    var cx: nat
    var cy: nat
    ghost var text: Text

    constructor (buf: array<Byte>, width: nat, height: nat, stride: nat, bpp: nat, format: Format, glyph: Byte -> Glyph)
      ensures this.buf == buf && this.width == width && this.height == height && this.stride == stride
      ensures this.bpp == bpp && this.format == format && this.glyph == glyph && cx == cy == 0
    {
      this.buf, this.width, this.height, this.stride := buf, width, height, stride;
      this.bpp, this.format, this.glyph := bpp, format, glyph;
      cx, cy, text := 0, 0, Text([], 0);
    }

    /** A surface whose buffer holds all its rows, with room for one character. */
    ghost predicate Fits() {
      && 1 <= bpp <= 4 && FONT_W <= width <= stride && FONT_H <= height
      && buf.Length == stride * height * bpp
    }

    function Cols(): nat { width / FONT_W }

    function At(x: nat, y: nat): nat { (y * stride + x) * bpp }

    lemma InBuffer(x: nat, y: nat)
      requires Fits() && x < stride && y < height
      ensures At(x, y) + bpp <= buf.Length
    {
      MulMono(y + 1, height, stride);
      assert y * stride + x + 1 <= stride * height;
      MulMono(y * stride + x + 1, stride * height, bpp);
    }

    lemma PixelsApart(x: nat, y: nat, x': nat, y': nat)
      requires Fits() && x < stride && x' < stride && (x, y) != (x', y')
      ensures At(x, y) + bpp <= At(x', y') || At(x', y') + bpp <= At(x, y)
    {
      var a, b := y * stride + x, y' * stride + x';
      IndicesApart(x, y, x', y');
      if a < b { MulMono(a + 1, b, bpp); } else { MulMono(b + 1, a, bpp); }
    }

    lemma IndicesApart(x: nat, y: nat, x': nat, y': nat)
      requires x < stride && x' < stride && (x, y) != (x', y')
      ensures y * stride + x != y' * stride + x'
    {
      if y < y' {
        MulMono(y + 1, y', stride);
      } else if y' < y {
        MulMono(y' + 1, y, stride);
      }
    }

    /** The bytes of one pixel. */
    ghost function Pixel(x: nat, y: nat): (p: seq<Byte>)
      requires Fits() && x < width && y < height
      reads buf
    {
      InBuffer(x, y);
      buf[At(x, y)..At(x, y) + bpp]
    }

    function Ink(on: bool): seq<Byte>
      requires bpp <= 4
    {
      Packed(format, Shade(on))[..bpp]
    }

    /** Every visible pixel is the rendering of `text`, and the cursor is on it. */
    ghost predicate Shows(t: Text)
      requires Fits()
      reads buf
    {
      forall x: nat, y: nat :: x < width && y < height ==> Pixel(x, y) == Ink(Inked(t, glyph, x, y))
    }

    ghost predicate Valid()
      reads this, buf
    {
      && Fits() && format != Other && WellFormed(text, height, Cols()) && cx == text.col * FONT_W && cy == Last(text.lines).top
      && Shows(text)
    }

    /** `put_pixel`: out-of-bounds coordinates and unknown formats are ignored, and
        no other pixel of the surface changes. */
    method PutPixel(x: nat, y: nat, c: Colour)
      requires Fits()
      modifies buf
      ensures forall x': nat, y': nat :: x' < width && y' < height ==>
        Pixel(x', y') == if x' == x && y' == y && format != Other then Packed(format, c)[..bpp] else old(Pixel(x', y'))
    {
      if x >= width || y >= height || format == Other {
        return;
      }
      InBuffer(x, y);
      var offset := At(x, y);
      var px := Packed(format, c);
      for i := 0 to bpp
        invariant forall k :: 0 <= k < i ==> buf[offset + k] == px[k]
        invariant forall k :: 0 <= k < buf.Length && !(offset <= k < offset + i) ==> buf[k] == old(buf[k])
      {
        buf[offset + i] := px[i];
      }
      forall x': nat, y': nat | x' < width && y' < height
        ensures Pixel(x', y') == if x' == x && y' == y then px[..bpp] else old(Pixel(x', y'))
      {
        InBuffer(x', y');
        if (x', y') != (x, y) { PixelsApart(x, y, x', y'); }
      }
    }

    /** Paint everything the background colour, and go to the top left. */
    method Clear()
      requires Fits() && format != Other
      modifies this, buf
      ensures Valid() && text == BlankText(Cols())
    {
      FillRows(0);
      cx, cy := 0, 0;
      text := BlankText(Cols());
      BlankShowsNothing();
    }

    /** Background from row `top` down. */
    method FillRows(top: nat)
      requires Fits() && format != Other && top <= height
      modifies buf
      ensures forall x: nat, y: nat :: x < width && y < height ==>
        Pixel(x, y) == if y >= top then Ink(false) else old(Pixel(x, y))
    {
      for y0 := top to height
        invariant forall x: nat, y: nat :: x < width && y < height ==>
          Pixel(x, y) == if top <= y < y0 then Ink(false) else old(Pixel(x, y))
      {
        for x0 := 0 to width
          invariant forall x: nat, y: nat :: x < width && y < height ==>
            Pixel(x, y) == if top <= y < y0 || (y == y0 && x < x0) then Ink(false) else old(Pixel(x, y))
        {
          PutPixel(x0, y0, Background());
        }
      }
    }

    lemma BlankShowsNothing()
      requires Fits()
      ensures WellFormed(BlankText(Cols()), height, Cols())
      ensures forall x: nat, y: nat :: !Inked(BlankText(Cols()), glyph, x, y)
    {
      forall x: nat, y: nat ensures !Inked(BlankText(Cols()), glyph, x, y) {
        BlankLineInk([], 0, Cols(), glyph, x, y);
        assert [] + [Line(0, BlankRow(Cols()))] == [Line(0, BlankRow(Cols()))];
      }
    }

    /** `blit_glyph`: exactly the cell at the cursor changes, to the glyph. */
    method BlitGlyph(c: Byte)
      requires Fits() && format != Other && cx + FONT_W <= width && cy + FONT_H <= height
      modifies buf
      ensures forall x: nat, y: nat :: x < width && y < height ==>
        Pixel(x, y) == if InCell(x, y) then Ink(Lit(glyph(c)[y - cy], x - cx)) else old(Pixel(x, y))
    {
      hide Lit, FbConsole.Pixel, FbConsole.Ink;
      var rows := glyph(c);
      for dy := 0 to FONT_H
        invariant forall x: nat, y: nat :: x < width && y < height ==>
          Pixel(x, y) == if InCell(x, y) && y < cy + dy then Ink(Lit(rows[y - cy], x - cx)) else old(Pixel(x, y))
      {
        BlitRow(rows[dy], dy);
      }
    }

    method BlitRow(bits: Byte, dy: nat)
      requires Fits() && format != Other && cx + FONT_W <= width && cy + dy < height
      modifies buf
      ensures forall x: nat, y: nat :: x < width && y < height ==>
        Pixel(x, y) == if y == cy + dy && cx <= x < cx + FONT_W then Ink(Lit(bits, x - cx)) else old(Pixel(x, y))
    {
      for dx := 0 to FONT_W
        invariant forall x: nat, y: nat :: x < width && y < height ==>
          Pixel(x, y) == if y == cy + dy && cx <= x < cx + dx then Ink(Lit(bits, x - cx)) else old(Pixel(x, y))
      {
        PutPixel(cx + dx, cy + dy, Shade(Lit(bits, dx)));
      }
    }

    predicate InCell(x: nat, y: nat)
      reads this
    {
      cx <= x < cx + FONT_W && cy <= y < cy + FONT_H
    }

    /** One text line of rows, as bytes. */
    function LineBytes(): nat { FONT_H * (stride * bpp) }

    lemma RowBelow(x: nat, y: nat)
      ensures At(x, y + FONT_H) == At(x, y) + LineBytes()
    {
      Distribute(y * stride + x, FONT_H * stride, bpp);
      Distribute(y, FONT_H, stride);
      Associate(FONT_H, stride, bpp);
    }

    /** The overlapping move up by one text line. */
    method MoveUp()
      requires Fits()
      modifies buf
      ensures forall x: nat, y: nat :: x < width && y + FONT_H < height ==> Pixel(x, y) == old(Pixel(x, y + FONT_H))
    {
      var shift := LineBytes();
      ShiftFits();
      forall i | 0 <= i < buf.Length - shift {
        buf[i] := buf[i + shift];
      }
      forall x: nat, y: nat | x < width && y + FONT_H < height ensures Pixel(x, y) == old(Pixel(x, y + FONT_H)) {
        RowBelow(x, y);
        InBuffer(x, y);
        InBuffer(x, y + FONT_H);
      }
    }

    lemma ShiftFits()
      requires Fits()
      ensures LineBytes() <= buf.Length
    {
      MulMono(FONT_H, height, stride * bpp);
      Associate(height, stride, bpp);
      assert stride * height == height * stride;
    }

    method ScrollLine()
      requires Fits() && format != Other
      modifies this`cy, buf
      ensures cy == height - FONT_H
      ensures forall x: nat, y: nat :: x < width && y < height ==>
        Pixel(x, y) == if y + FONT_H < height then old(Pixel(x, y + FONT_H)) else Ink(false)
    {
      MoveUp();
      var clearedTop := height - FONT_H;
      FillRows(clearedTop);
      cy := clearedTop;
    }

    method AdvanceLine()
      requires Valid()
      modifies this, buf
      ensures Valid() && text == NewLine(old(text), Cols(), height)
    {
      hide Inked, NewLine, Spaced, FbConsole.Pixel, FbConsole.Ink;
      WriteStaysWellFormed(text, Cols(), height, 10);
      NewLineCursor(text, Cols(), height);
      ghost var was := text;
      ghost var now := NewLine(was, Cols(), height);
      cx := 0;
      if cy + 2 * FONT_H > height {
        ScrollLine();
      } else {
        cy := cy + FONT_H;
      }
      text := now;
      forall x: nat, y: nat | x < width && y < height ensures Pixel(x, y) == Ink(Inked(now, glyph, x, y)) {
        AfterNewLine(was, height, Cols(), glyph, x, y);
      }
    }

    /** `write_byte`: the screen goes on showing the text, with this byte written. */
    method WriteByte(b: Byte)
      requires Valid()
      modifies this, buf
      ensures Valid() && text == Write(old(text), Cols(), height, b)
    {
      hide NewLine, Shows;
      WriteStaysWellFormed(text, Cols(), height, b);
      if b == 10 {
        AdvanceLine();
      } else if b == 13 {
        Return();
      } else {
        Edge();
        if cx + FONT_W > width {
          AdvanceLine();
          NewLineCursor(old(text), Cols(), height);
        }
        DrawGlyph(b);
      }
    }

    method Return()
      requires Valid()
      modifies this
      ensures Valid() && text == old(text).(col := 0)
    {
      cx := 0;
      text := text.(col := 0);
      forall x: nat, y: nat ensures Inked(text, glyph, x, y) == Inked(old(text), glyph, x, y) {
      }
    }

    /** A glyph fits exactly while the cursor is short of the last whole cell. */
    lemma Edge()
      requires Fits() && WellFormed(text, height, Cols()) && cx == text.col * FONT_W
      ensures cx + FONT_W > width <==> text.col == Cols()
    {
    }

    method DrawGlyph(c: Byte)
      requires Valid() && text.col < Cols()
      modifies this, buf
      ensures Valid() && text == Draw(old(text), c)
    {
      hide Inked, Lit, Draw, FbConsole.Pixel, FbConsole.Ink;
      DrawCursor(text, Cols(), height, c);
      ghost var t := text;
      forall x: nat, y: nat { AfterDraw(t, height, Cols(), glyph, c, x, y); }
      BlitGlyph(c);
      cx := cx + FONT_W;
      text := Draw(text, c);
    }

    /** `write_str`: for every string of bytes, the screen shows exactly what the lines
        of text hold. */
    method WriteStr(bytes: seq<Byte>)
      requires Valid()
      modifies this, buf
      ensures Valid() && text == WriteAll(old(text), Cols(), height, bytes)
    {
      hide Write, Shows;
      for n := 0 to |bytes|
        invariant Valid() && text == WriteAll(old(text), Cols(), height, bytes[..n])
      {
        assert bytes[..n + 1][..n] == bytes[..n];
        WriteByte(bytes[n]);
      }
      assert bytes[..|bytes|] == bytes;
    }
  }

  lemma DrawCursor(t: Text, cols: nat, height: nat, c: Byte)
    requires WellFormed(t, height, cols) && t.col < cols
    ensures var d := Draw(t, c);
      WellFormed(d, height, cols) && Last(d.lines).top == Last(t.lines).top && d.col == t.col + 1
  {
  }

  lemma NewLineCursor(t: Text, cols: nat, height: nat)
    requires t.lines != []
    ensures var n := NewLine(t, cols, height);
      && n.col == 0 && n.lines != []
      && Last(n.lines).top == if Last(t.lines).top + 2 * FONT_H <= height then Last(t.lines).top + FONT_H else height - FONT_H
  {
  }

  lemma {:induction false} NothingBelow(lines: seq<Line>, glyph: Byte -> Glyph, x: nat, y: nat)
    requires Spaced(lines) && (lines != [] ==> Last(lines).top + FONT_H <= y)
    ensures !InkedIn(lines, glyph, x, y)
  {
    hide LineInked;
    if lines != [] {
      var n := |lines| - 1;
      if n > 0 { assert lines[n - 1].top + FONT_H <= lines[n].top; }
      NothingBelow(lines[..n], glyph, x, y);
    }
  }

  lemma {:induction false} RaisedInk(lines: seq<Line>, glyph: Byte -> Glyph, x: nat, y: nat)
    ensures InkedIn(Raised(lines), glyph, x, y) == InkedIn(lines, glyph, x, y + FONT_H)
  {
    hide Lit;
    if lines != [] {
      var n := |lines| - 1;
      RaisedInk(lines[..n], glyph, x, y);
      assert Raised(lines)[..n] == Raised(lines[..n]);
    }
  }

  lemma BlankLineInk(lines: seq<Line>, top: int, cols: nat, glyph: Byte -> Glyph, x: nat, y: nat)
    ensures InkedIn(lines + [Line(top, BlankRow(cols))], glyph, x, y)
         == (!Covers(Line(top, BlankRow(cols)), y) && InkedIn(lines, glyph, x, y))
  {
    hide Lit;
    assert (lines + [Line(top, BlankRow(cols))])[..|lines|] == lines;
  }

  /** What a new line does to one pixel of the rendering. */
  lemma AfterNewLine(t: Text, height: nat, cols: nat, glyph: Byte -> Glyph, x: nat, y: nat)
    requires WellFormed(t, height, cols) && y < height
    ensures var (now, scrolls) := (NewLine(t, cols, height), Last(t.lines).top + 2 * FONT_H > height);
      Inked(now, glyph, x, y)
      == if !scrolls then Inked(t, glyph, x, y) else y + FONT_H < height && Inked(t, glyph, x, y + FONT_H)
  {
    hide InkedIn;
    var below := Last(t.lines).top + FONT_H;
    if below + FONT_H <= height {
      BlankLineInk(t.lines, below, cols, glyph, x, y);
      if y >= below { NothingBelow(t.lines, glyph, x, y); }
    } else {
      BlankLineInk(Raised(t.lines), height - FONT_H, cols, glyph, x, y);
      RaisedInk(t.lines, glyph, x, y);
    }
  }

  /** What drawing a character does to one pixel of the rendering. */
  lemma AfterDraw(t: Text, height: nat, cols: nat, glyph: Byte -> Glyph, c: Byte, x: nat, y: nat)
    requires WellFormed(t, height, cols) && t.col < cols
    ensures var top := Last(t.lines).top;
      Inked(Draw(t, c), glyph, x, y)
      == if t.col * FONT_W <= x < t.col * FONT_W + FONT_W && top <= y < top + FONT_H
         then Lit(glyph(c)[y - top], x - t.col * FONT_W) else Inked(t, glyph, x, y)
  {
    hide Lit;
    var n := |t.lines| - 1;
    assert Draw(t, c).lines[..n] == t.lines[..n];
    if t.col * FONT_W <= x < t.col * FONT_W + FONT_W {
      assert x / FONT_W == t.col && x % FONT_W == x - t.col * FONT_W;
    }
  }

  lemma Distribute(a: nat, b: nat, k: nat)
    ensures (a + b) * k == a * k + b * k
  {
  }

  lemma Associate(a: nat, b: nat, c: nat)
    ensures a * b * c == a * (b * c)
  {
  }

  lemma MulMono(a: nat, b: nat, k: nat)
    requires a <= b
    ensures a * k <= b * k
  {
  }
}
