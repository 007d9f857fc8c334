/** What the console's output looks like to the person reading it: where each byte of a
    text stands, which pixels of the screen it lights, and in which colour
    (kernel/src/fbcon.rs). */
module FbTexts {
  import opened Prelude
  import opened Words
  import opened FbConsoles

  // ----- where each byte stands -----

  /** No newline and no carriage return. */
  predicate Plain(s: seq<Byte>) {
    forall i :: 0 <= i < |s| ==> s[i] != 10 && s[i] != 13
  }

  /** How many places row `r`, column `c` is past the cursor, reading on in rows. */
  function PastCursor(t: Text, cols: nat, r: int, c: nat): int {
    (r - |t.lines| + 1) * cols + c - t.col
  }

  /** What stands there once a plain text follows what was there: the text runs on from
      the cursor, row after row, and touches nothing else. */
  function Flowed(t: Text, cols: nat, s: seq<Byte>, r: nat, c: nat): Option<Byte> {
    var i := PastCursor(t, cols, r, c);
    if 0 <= i < |s| then Some(s[i]) else Standing(t, r, c)
  }

  function Standing(t: Text, r: nat, c: nat): Option<Byte> {
    if r < |t.lines| && c < |t.lines[r].cells| then t.lines[r].cells[c] else None
  }

  ghost predicate Flows(t: Text, cols: nat, s: seq<Byte>, after: Text) {
    && |after.lines| >= |t.lines| && (s != [] ==> after.col > 0)
    && PastCursor(t, cols, |after.lines| - 1, after.col) == |s|
    && forall r: nat, c: nat :: r < |after.lines| && c < cols ==> Standing(after, r, c) == Flowed(t, cols, s, r, c)
  }

  lemma PlacesDiffer(t: Text, cols: nat, r: nat, c: nat, r': nat, c': nat)
    requires c < cols && c' < cols && (r, c) != (r', c')
    ensures PastCursor(t, cols, r, c) != PastCursor(t, cols, r', c')
  {
    if r < r' { MulMono(r + 1, r', cols); } else if r' < r { MulMono(r' + 1, r, cols); }
    Distribute(r, 1, cols);
    Distribute(r', 1, cols);
    assert PastCursor(t, cols, r, c) - PastCursor(t, cols, r', c') == r * cols - r' * cols + c - c';
  }

  lemma NextRow(t: Text, cols: nat, r: int, c: nat)
    ensures PastCursor(t, cols, r + 1, c) == PastCursor(t, cols, r, c) + cols
    ensures PastCursor(t, cols, r, c) == PastCursor(t, cols, r, 0) + c
  {
  }

  lemma AtCursor(t: Text, cols: nat)
    ensures PastCursor(t, cols, |t.lines| - 1, t.col) == 0
  {
  }

  /** Where one byte lands: at the cursor, or at the start of a new row when the row is
      full. */
  lemma OneLands(t: Text, cols: nat, height: nat, b: Byte)
    requires WellFormed(t, height, cols) && b != 10 && b != 13
    ensures var after := Write(t, cols, height, b);
      && WellFormed(after, height, cols) && after.col > 0
      && |after.lines| == |t.lines| + (if t.col == cols then 1 else 0) && after.col == (if t.col == cols then 0 else t.col) + 1
      && forall r: nat, c: nat :: r < |after.lines| && c < cols ==>
           Standing(after, r, c) == if r == |after.lines| - 1 && c == after.col - 1 then Some(b) else Standing(t, r, c)
  {
    WriteStaysWellFormed(t, cols, height, b);
    hide Spaced;
  }

  /** For every plain text, from every cursor: each byte stands where running on and
      wrapping at the edge puts it, and the cursor ends after the last. */
  lemma {:induction false} TextWraps(t: Text, cols: nat, height: nat, s: seq<Byte>)
    requires WellFormed(t, height, cols) && Plain(s)
    ensures Flows(t, cols, s, WriteAll(t, cols, height, s))
    decreases |s|
  {
    hide Write, Spaced, PastCursor;
    if s == [] {
      AtCursor(t, cols);
    } else {
      var m := |s| - 1;
      TextWraps(t, cols, height, s[..m]);
      var before := WriteAll(t, cols, height, s[..m]);
      OneLands(before, cols, height, s[m]);
      OneFlows(t, cols, s, before, Write(before, cols, height, s[m]));
    }
  }

  lemma OneFlows(t: Text, cols: nat, s: seq<Byte>, before: Text, after: Text)
    requires s != [] && cols > 0 && before.lines != [] && before.col <= cols && Flows(t, cols, s[..|s| - 1], before)
    requires forall k :: 0 <= k < |before.lines| ==> |before.lines[k].cells| == cols
    requires |after.lines| == |before.lines| + (if before.col == cols then 1 else 0)
    requires after.col == (if before.col == cols then 0 else before.col) + 1
    requires forall r: nat, c: nat :: r < |after.lines| && c < cols ==>
      Standing(after, r, c) == if r == |after.lines| - 1 && c == after.col - 1 then Some(s[|s| - 1]) else Standing(before, r, c)
    ensures Flows(t, cols, s, after)
  {
    hide PastCursor, Standing;
    var m, r0, c0 := |s| - 1, |after.lines| - 1, after.col - 1;
    NextRow(t, cols, |before.lines| - 1, before.col);
    NextRow(t, cols, r0, c0);
    NextRow(t, cols, r0, after.col);
    NextRow(t, cols, |before.lines| - 1, 0);
    assert PastCursor(t, cols, r0, c0) == m;
    forall r: nat, c: nat | r < |after.lines| && c < cols ensures Standing(after, r, c) == Flowed(t, cols, s, r, c) {
      if (r, c) != (r0, c0) {
        PlacesDiffer(t, cols, r, c, r0, c0);
        if r == |before.lines| {
          NextRow(t, cols, r, c);
          NothingThere(before, t, r, c);
        }
      }
    }
  }

  lemma NothingThere(before: Text, t: Text, r: nat, c: nat)
    requires r >= |before.lines| >= |t.lines|
    ensures Standing(before, r, c) == None && Standing(t, r, c) == None
  {
  }

  lemma {:induction false} WriteAllOn(t: Text, cols: nat, height: nat, a: seq<Byte>, b: seq<Byte>)
    requires WellFormed(t, height, cols)
    ensures WriteAll(t, cols, height, a + b) == WriteAll(WriteAll(t, cols, height, a), cols, height, b)
    decreases |b|
  {
    hide WellFormed, Write;
    if b == [] {
      assert a + b == a;
    } else {
      WriteAllOn(t, cols, height, a, b[..|b| - 1]);
      assert (a + b)[..|a + b| - 1] == a + b[..|b| - 1];
    }
  }

  /** A line typed over: after a carriage return a plain text no longer than the row
      replaces the beginning of the last row, and what it does not reach stays. */
  lemma ReturnOverwrites(t: Text, cols: nat, height: nat, s: seq<Byte>)
    requires WellFormed(t, height, cols) && Plain(s) && |s| <= cols
    ensures var after := WriteAll(t, cols, height, [13] + s);
      && |after.lines| == |t.lines| && after.col == |s|
      && forall r: nat, c: nat :: r < |t.lines| && c < cols ==>
           Standing(after, r, c) == if r == |t.lines| - 1 && c < |s| then Some(s[c]) else Standing(t, r, c)
  {
    hide Spaced;
    WriteAllOn(t, cols, height, [13], s);
    assert WriteAll(t, cols, height, [13]) == t.(col := 0) by { OneByte(t, cols, height, 13); }
    TextWraps(t.(col := 0), cols, height, s);
    OneRowOnly(t.(col := 0), cols, s, WriteAll(t.(col := 0), cols, height, s));
  }

  lemma OneByte(t: Text, cols: nat, height: nat, b: Byte)
    requires WellFormed(t, height, cols)
    ensures WriteAll(t, cols, height, [b]) == Write(t, cols, height, b)
  {
    assert [b][..0] == [];
  }

  /** A newline starts a row of its own under the rest: a plain text no longer than the
      row stands at its beginning, blank after it. */
  lemma NewlineStarts(t: Text, cols: nat, height: nat, s: seq<Byte>)
    requires WellFormed(t, height, cols) && Plain(s) && |s| <= cols
    ensures var after := WriteAll(t, cols, height, [10] + s);
      && |after.lines| == |t.lines| + 1 && after.col == |s|
      && forall r: nat, c: nat :: r <= |t.lines| && c < cols ==>
           Standing(after, r, c) == if r < |t.lines| then Standing(t, r, c) else if c < |s| then Some(s[c]) else None
  {
    hide Spaced;
    WriteAllOn(t, cols, height, [10], s);
    OneByte(t, cols, height, 10);
    var begun := Write(t, cols, height, 10);
    WriteStaysWellFormed(t, cols, height, 10);
    TextWraps(begun, cols, height, s);
    OneRowOnly(begun, cols, s, WriteAll(begun, cols, height, s));
  }

  /** From the start of a row, a text no longer than it stays in it. */
  lemma OneRowOnly(t: Text, cols: nat, s: seq<Byte>, after: Text)
    requires t.lines != [] && t.col == 0 && |s| <= cols && 0 < cols && after.col <= cols && Flows(t, cols, s, after)
    ensures |after.lines| == |t.lines| && after.col == |s|
    ensures forall r: nat, c: nat :: r < |t.lines| && c < cols ==>
      Standing(after, r, c) == if r == |t.lines| - 1 && c < |s| then Some(s[c]) else Standing(t, r, c)
  {
    hide Standing, PastCursor;
    NextRow(t, cols, |after.lines| - 1, after.col);
    RowsPast(t, cols, |after.lines| - 1);
    forall r: nat, c: nat | r < |t.lines| && c < cols
      ensures Standing(after, r, c) == if r == |t.lines| - 1 && c < |s| then Some(s[c]) else Standing(t, r, c)
    {
      NextRow(t, cols, r, c);
      RowsPast(t, cols, r);
    }
  }

  lemma RowsPast(t: Text, cols: nat, r: nat)
    requires t.col == 0
    ensures r == |t.lines| - 1 ==> PastCursor(t, cols, r, 0) == 0
    ensures r >= |t.lines| ==> PastCursor(t, cols, r, 0) >= cols
    ensures r < |t.lines| - 1 ==> PastCursor(t, cols, r, 0) + cols <= 0
  {
    if r >= |t.lines| { MulMono(1, r - |t.lines| + 1, cols); }
    if r < |t.lines| - 1 {
      MulMono(1, |t.lines| - 1 - r, cols);
      assert (r - |t.lines| + 1) * cols == -((|t.lines| - 1 - r) * cols);
    }
  }

  // ----- what the screen shows of it -----

  /** The bits of a glyph row are its pixels from left to right, the first the highest. */
  lemma LitBits(bits: Byte)
    ensures bits == (if Lit(bits, 0) then 128 else 0) + (if Lit(bits, 1) then 64 else 0) + (if Lit(bits, 2) then 32 else 0)
                  + (if Lit(bits, 3) then 16 else 0) + (if Lit(bits, 4) then 8 else 0) + (if Lit(bits, 5) then 4 else 0)
                  + (if Lit(bits, 6) then 2 else 0) + (if Lit(bits, 7) then 1 else 0)
  {
    hide Lit, Bit;
    forall dx | 0 <= dx < 8 { LitIsBit(bits, dx); }
    BitsSum(bits);
  }

  lemma LitIsBit(bits: Byte, dx: nat)
    requires dx < 8
    ensures Bit(bits, 7 - dx) == if Lit(bits, dx) then 1 else 0
  {
  }

  function Bit(bits: Byte, k: nat): nat
    requires k < 8
  {
    bits / Pow2(k) % 2
  }

  lemma Pow2s()
    ensures Pow2(0) == 1 && Pow2(1) == 2 && Pow2(2) == 4 && Pow2(3) == 8
    ensures Pow2(4) == 16 && Pow2(5) == 32 && Pow2(6) == 64 && Pow2(7) == 128
  {
    assert Pow2(0) == 1 && Pow2(1) == 2 && Pow2(2) == 4;
    assert Pow2(4) == 2 * Pow2(3) && Pow2(6) == 2 * Pow2(5);
  }

  lemma BitsSum(bits: Byte)
    ensures bits == 128 * Bit(bits, 7) + 64 * Bit(bits, 6) + 32 * Bit(bits, 5) + 16 * Bit(bits, 4)
                  + 8 * Bit(bits, 3) + 4 * Bit(bits, 2) + 2 * Bit(bits, 1) + Bit(bits, 0)
  {
    Pow2s();
    forall k: nat | k < 7 ensures bits / Pow2(k) == 2 * (bits / Pow2(k + 1)) + Bit(bits, k) {
      Halved(bits, Pow2(k));
    }
    assert bits / Pow2(0) == bits && bits / Pow2(7) == Bit(bits, 7);
    hide Bit;
    assert bits / Pow2(4) == 8 * Bit(bits, 7) + 4 * Bit(bits, 6) + 2 * Bit(bits, 5) + Bit(bits, 4);
  }

  lemma Halved(x: nat, k: nat)
    requires k > 0
    ensures x / k / 2 == x / (2 * k)
  {
    var q := x / k / 2;
    var r := x - 2 * k * q;
    assert x == k * (x / k) + x % k && x / k == 2 * q + x / k % 2;
    assert r == k * (x / k % 2) + x % k;
    QuotientIsUnique(x, 2 * k, q, r);
  }

  /** The pixels of row `k`, column `c`: those of the glyph that stands there, if any. */
  lemma {:induction false} CellIsSeen(t: Text, glyph: Byte -> Glyph, k: nat, c: nat, dx: nat, dy: nat)
    requires Spaced(t.lines) && k < |t.lines| && c < |t.lines[k].cells| && dx < 8 && dy < 8 && t.lines[k].top + dy >= 0
    ensures Inked(t, glyph, c * 8 + dx, t.lines[k].top + dy)
            <==> Standing(t, k, c).Some? && Lit(glyph(Standing(t, k, c).value)[dy], dx)
    decreases |t.lines|
  {
    hide Lit;
    assert (c * 8 + dx) / 8 == c && (c * 8 + dx) % 8 == dx;
    var n := |t.lines| - 1;
    if k < n {
      assert t.lines[k].top + FONT_H <= t.lines[n].top;
      CellIsSeen(t.(lines := t.lines[..n]), glyph, k, c, dx, dy);
    }
  }

  // ----- in which colour -----

  /** What a display makes of the first bytes of a pixel: red, green and blue in the
      format's order, or one level for all three. */
  function Displayed(f: Format, px: seq<Byte>): Colour
    requires |px| >= (if f == Grey then 1 else 3) && f != Other
  {
    match f
    case Rgb => Colour(px[0], px[1], px[2])
    case Bgr => Colour(px[2], px[1], px[0])
    case Grey => Colour(px[0], px[0], px[0])
  }

  /** A colour display shows the colour asked for; a grey one its brightness, exactly for
      greys; and ink on the console is light grey on black. */
  lemma ColourIsShown(f: Format, c: Colour, bpp: nat)
    requires f != Other && bpp <= 4 && bpp >= (if f == Grey then 1 else 3)
    ensures f != Grey || c.r == c.g == c.b ==> Displayed(f, Packed(f, c)[..bpp]) == c
    ensures f == Grey ==>
      var l := Displayed(f, Packed(f, c)[..bpp]).r;
      256 * l <= 77 * c.r + 150 * c.g + 29 * c.b < 256 * l + 256
    ensures forall on :: Displayed(f, Packed(f, Shade(on))[..bpp]) == if on then Colour(0xAA, 0xAA, 0xAA) else Colour(0, 0, 0)
  {
  }
}
