/** The physical frame allocator: one bit per 4-KiB frame, set = unavailable
    (kernel/src/frame_alloc.rs). `avail` is the set the bitmap denotes; every
    operation is specified on it, and the counter is proved to be its size. */
module FrameAllocator {
  import opened Prelude
  import opened Words

  const FRAME_SIZE: nat := 4096
  const TRAMPOLINE_PHYS: nat := 0x8000

  datatype FrameError = Exhausted | OutOfRange | NotAllocated

  // ----- the bitmap as a set of clear bits -----

  predicate Clear(words: seq<Word>, i: nat)
    requires i < 64 * |words|
  {
    !Bit(words[i / 64], i % 64)
  }

  ghost function FreeIn(words: seq<Word>): set<nat> {
    set i | 0 <= i < 64 * |words| && Clear(words, i)
  }

  function WithBitSet(words: seq<Word>, i: nat): (r: seq<Word>)
    requires i < 64 * |words|
    ensures |r| == |words|
  {
    Pow2Of64();
    BitOpsStayInRange(words[i / 64], i % 64, 64);
    words[i / 64 := SetBit(words[i / 64], i % 64)]
  }

  function WithBitClear(words: seq<Word>, i: nat): (r: seq<Word>)
    requires i < 64 * |words|
    ensures |r| == |words|
  {
    Pow2Of64();
    BitOpsStayInRange(words[i / 64], i % 64, 64);
    words[i / 64 := ClearBit(words[i / 64], i % 64)]
  }

  lemma SettingRemoves(words: seq<Word>, i: nat)
    requires i < 64 * |words|
    ensures FreeIn(WithBitSet(words, i)) == FreeIn(words) - {i}
  {
    forall j | 0 <= j < 64 * |words|
      ensures Clear(WithBitSet(words, i), j) == (j != i && Clear(words, j))
    {
      SetBitBits(words[i / 64], i % 64, j % 64);
    }
  }

  lemma ClearingAdds(words: seq<Word>, i: nat)
    requires i < 64 * |words|
    ensures FreeIn(WithBitClear(words, i)) == FreeIn(words) + {i}
  {
    forall j | 0 <= j < 64 * |words|
      ensures Clear(WithBitClear(words, i), j) == (j == i || Clear(words, j))
    {
      ClearBitBits(words[i / 64], i % 64, j % 64);
    }
  }

  /** The set determines the bitmap word for word, so an operation that restores
      `avail` restores the bitmap itself. */
  lemma FreeSetDeterminesBitmap(v: seq<Word>, w: seq<Word>)
    requires |v| == |w| && FreeIn(v) == FreeIn(w)
    ensures v == w
  {
    Pow2Of64();
    forall k | 0 <= k < |v| ensures v[k] == w[k] {
      forall j | 0 <= j < 64 ensures Bit(v[k], j) == Bit(w[k], j) {
        var i := 64 * k + j;
        assert i / 64 == k && i % 64 == j;
        assert i in FreeIn(v) <==> Clear(v, i);
        assert i in FreeIn(w) <==> Clear(w, i);
      }
      BitsDetermineWord(v[k], w[k], 64);
    }
  }

  lemma AllOnesIsEmpty(words: seq<Word>)
    requires forall k :: 0 <= k < |words| ==> words[k] == WORD_MAX
    ensures FreeIn(words) == {}
  {
    Pow2Of64();
    forall i | 0 <= i < 64 * |words| ensures !Clear(words, i) {
      AllOnesBits(64, i % 64);
    }
  }

  /** The scan's arithmetic: with every earlier word full, the first clear bit of
      word `wi` is the lowest member of the free set. */
  lemma LowestFree(words: seq<Word>, wi: nat)
    requires wi < |words| && words[wi] != WORD_MAX
    requires forall k :: 0 <= k < wi ==> words[k] == WORD_MAX
    ensures TrailingOnes(words[wi]) < 64
    ensures 64 * wi + TrailingOnes(words[wi]) in FreeIn(words)
    ensures forall j :: j in FreeIn(words) ==> 64 * wi + TrailingOnes(words[wi]) <= j
    ensures SetBit(words[wi], TrailingOnes(words[wi])) < WORD_LIMIT
  {
    Pow2Of64();
    TrailingOnesIsLowestClear(words[wi], 64);
    var bit := TrailingOnes(words[wi]);
    var idx := 64 * wi + bit;
    BitOpsStayInRange(words[wi], bit, 64);
    assert idx / 64 == wi && idx % 64 == bit;
    assert Clear(words, idx);
    forall j | 0 <= j < idx ensures !Clear(words, j) {
      if j / 64 < wi {
        AllOnesBits(64, j % 64);
      }
    }
  }

  // ----- the boot memory map -----

  datatype Region = Region(start: nat, end: nat, usable: bool)

  function Usable(regions: seq<Region>): (r: seq<Region>)
    ensures forall x :: x in r <==> x in regions && x.usable
  {
    if regions == [] then []
    else if regions[0].usable then [regions[0]] + Usable(regions[1..])
    else Usable(regions[1..])
  }

  /** The highest end of any region. */
  function MaxEnd(rs: seq<Region>): (e: nat)
    requires rs != []
    ensures forall r :: r in rs ==> r.end <= e
    ensures exists r :: r in rs && r.end == e
  {
    if |rs| == 1 then rs[0].end
    else
      var rest := MaxEnd(rs[1..]);
      if rs[0].end > rest then rs[0].end else rest
  }

  /** The largest region, the last of them on a tie. */
  function Largest(rs: seq<Region>): (h: Region)
    requires rs != []
    ensures h in rs
    ensures forall r :: r in rs ==> r.end - r.start <= h.end - h.start
  {
    if |rs| == 1 then rs[0]
    else
      var rest := Largest(rs[1..]);
      if rs[0].end - rs[0].start > rest.end - rest.start then rs[0] else rest
  }

  function DivCeil(a: nat, b: nat): nat
    requires b > 0
  {
    (a + b - 1) / b
  }

  function TotalFrames(regions: seq<Region>): nat
    requires Usable(regions) != []
  {
    MaxEnd(Usable(regions)) / FRAME_SIZE
  }

  function BitmapWords(regions: seq<Region>): nat
    requires Usable(regions) != []
  {
    DivCeil(TotalFrames(regions), 64)
  }

  function BitmapFrames(regions: seq<Region>): nat
    requires Usable(regions) != []
  {
    DivCeil(BitmapWords(regions) * 8, FRAME_SIZE)
  }

  /** First frame of the bitmap's own storage, in the largest usable region. */
  function BitmapFirst(regions: seq<Region>): nat
    requires Usable(regions) != []
  {
    DivCeil(Largest(Usable(regions)).start, FRAME_SIZE)
  }

  /** What `new` asserts of the memory map (it panics otherwise). */
  predicate Bootable(regions: seq<Region>) {
    && Usable(regions) != []
    && (forall r :: r in regions && r.usable ==> r.start <= r.end)
    && TotalFrames(regions) > 0
    && Largest(Usable(regions)).end >= (BitmapFirst(regions) + BitmapFrames(regions)) * FRAME_SIZE
  }

  predicate InUsable(rs: seq<Region>, i: nat) {
    exists k :: 0 <= k < |rs| && Covers(rs[k], i)
  }

  /** Frame `i` lies wholly inside `r`. */
  predicate Covers(r: Region, i: nat) {
    DivCeil(r.start, FRAME_SIZE) <= i < r.end / FRAME_SIZE
  }

  predicate Reserved(regions: seq<Region>, i: nat)
    requires Usable(regions) != []
  {
    || i == 0
    || i == TRAMPOLINE_PHYS / FRAME_SIZE
    || BitmapFirst(regions) <= i < BitmapFirst(regions) + BitmapFrames(regions)
  }

  /** Exactly the frames the allocator may ever hand out. */
  ghost function Pool(regions: seq<Region>): set<nat>
    requires Usable(regions) != []
  {
    set i | 0 <= i < TotalFrames(regions) && InUsable(Usable(regions), i) && !Reserved(regions, i)
  }

  predicate Within(first: nat, last: nat, i: nat) { first <= i < last }

  /** Frame numbers `first..last`. */
  ghost function Span(first: nat, last: nat): set<nat> {
    set i | 0 <= i < last && Within(first, last, i)
  }

  lemma SpanStep(first: nat, idx: nat)
    requires first <= idx
    ensures Span(first, idx + 1) == Span(first, idx) + {idx}
  {
    assert forall i :: Within(first, idx + 1, i) <==> Within(first, idx, i) || i == idx;
  }

  lemma EmptySpan(first: nat, last: nat)
    ensures last <= first ==> Span(first, last) == {}
  {
  }

  /** The frames a pass over the usable regions opens. */
  ghost function Opened(rs: seq<Region>): set<nat> {
    if rs == [] then {}
    else
      var r := rs[|rs| - 1];
      Opened(rs[..|rs| - 1]) + Span(DivCeil(r.start, FRAME_SIZE), r.end / FRAME_SIZE)
  }

  lemma {:induction false} OpenedMembers(rs: seq<Region>, i: nat)
    ensures i in Opened(rs) <==> InUsable(rs, i)
  {
    if rs != [] {
      var front, last := rs[..|rs| - 1], |rs| - 1;
      OpenedMembers(front, i);
      if InUsable(front, i) {
        var k :| 0 <= k < |front| && Covers(front[k], i);
        assert Covers(rs[k], i);
      }
      if InUsable(rs, i) {
        var k :| 0 <= k < |rs| && Covers(rs[k], i);
        assert k < last ==> Covers(front[k], i);
      }
      assert Covers(rs[last], i) <==> Within(DivCeil(rs[last].start, FRAME_SIZE), rs[last].end / FRAME_SIZE, i);
    }
  }

  lemma PoolFromOpened(regions: seq<Region>)
    requires Bootable(regions)
    ensures Pool(regions)
         == Opened(Usable(regions))
            - Span(BitmapFirst(regions), BitmapFirst(regions) + BitmapFrames(regions))
            - {0} - {TRAMPOLINE_PHYS / FRAME_SIZE}
  {
    hide FreeIn, Opened, Reserved;
    var rs := Usable(regions);
    var span := Span(BitmapFirst(regions), BitmapFirst(regions) + BitmapFrames(regions));
    UsableIsTracked(regions);
    forall i: nat
      ensures i in Pool(regions) <==> i in Opened(rs) - span - {0} - {TRAMPOLINE_PHYS / FRAME_SIZE}
    {
      OpenedMembers(rs, i);
      ReservedMembers(regions, i);
      if InUsable(rs, i) {
        var k :| 0 <= k < |rs| && Covers(rs[k], i);
        assert rs[k] in rs;
      }
    }
  }

  lemma ReservedMembers(regions: seq<Region>, i: nat)
    requires Usable(regions) != []
    ensures Reserved(regions, i) <==>
      || i in Span(BitmapFirst(regions), BitmapFirst(regions) + BitmapFrames(regions))
      || i == 0 || i == TRAMPOLINE_PHYS / FRAME_SIZE
  {
    assert Within(BitmapFirst(regions), BitmapFirst(regions) + BitmapFrames(regions), i)
      <==> BitmapFirst(regions) <= i < BitmapFirst(regions) + BitmapFrames(regions);
  }

  lemma UsableIsTracked(regions: seq<Region>)
    requires Usable(regions) != []
    ensures forall r :: r in Usable(regions) ==> r.end / FRAME_SIZE <= TotalFrames(regions)
  {
  }

  /** Byte by byte: a frame in the pool lies inside one usable region, and holds
      no byte of frame 0, of the trampoline page, or of the bitmap. */
  lemma PoolFramesAreUsableMemory(regions: seq<Region>, i: nat, b: nat)
    requires Bootable(regions) && i in Pool(regions)
    requires i * FRAME_SIZE <= b < (i + 1) * FRAME_SIZE
    ensures exists r :: r in regions && r.usable && r.start <= b < r.end
    ensures b >= FRAME_SIZE
    ensures !(TRAMPOLINE_PHYS <= b < TRAMPOLINE_PHYS + FRAME_SIZE)
    ensures !(BitmapFirst(regions) * FRAME_SIZE <= b
              < BitmapFirst(regions) * FRAME_SIZE + 8 * BitmapWords(regions))
  {
    var rs := Usable(regions);
    var k :| 0 <= k < |rs| && Covers(rs[k], i);
    assert rs[k] in regions;
    assert b / FRAME_SIZE == i;
    assert 8 * BitmapWords(regions) <= BitmapFrames(regions) * FRAME_SIZE;
  }

  // ----- the allocator -----

  class FrameAlloc {
    const bitmap: array<Word>
    const frames: nat
    var free: nat

    /** Frame numbers whose bit is clear. */
    ghost var avail: set<nat>

    ghost predicate Valid()
      reads this, bitmap
    {
      && bitmap.Length == DivCeil(frames, 64)
      && avail == FreeIn(bitmap[..])
      && free == |avail|
      && (forall i :: i in avail ==> i < frames)
    }

    /** Build the allocator from the memory map: all bits set, then every usable
        region opened, then the bitmap, frame 0 and the trampoline taken back. */
    constructor (regions: seq<Region>)
      requires Bootable(regions)
      ensures Valid() && fresh(bitmap)
      ensures frames == TotalFrames(regions)
      ensures avail == Pool(regions)
    {
      hide FreeIn, Span, Opened, Pool, Reserved, DivCeil, BitmapFirst, BitmapFrames;
      hide MaxEnd, Largest, Usable, InUsable, TotalFrames, BitmapWords;
      BitmapIsTracked(regions);
      UsableIsTracked(regions);
      frames := TotalFrames(regions);
      bitmap := new Word[BitmapWords(regions)](_ => WORD_MAX);
      free := 0;
      avail := {};
      new;
      AllOnesIsEmpty(bitmap[..]);
      OpenUsable(Usable(regions));
      ReserveBootFrames(BitmapFirst(regions), BitmapFirst(regions) + BitmapFrames(regions));
      PoolFromOpened(regions);
    }

    method ReserveBootFrames(first: nat, last: nat)
      requires Valid() && 0 < bitmap.Length && first <= last <= 64 * bitmap.Length
      modifies this, bitmap
      ensures Valid()
      ensures avail == old(avail) - Span(first, last) - {0} - {TRAMPOLINE_PHYS / FRAME_SIZE}
    {
      hide FreeIn, Span, DivCeil;
      MarkUsedRange(first, last);
      MarkUsed(0);
      // The trampoline frame may lie past the end of a tiny machine's memory but
      // never past the first bitmap word.
      MarkUsed(TRAMPOLINE_PHYS / FRAME_SIZE);
    }

    method OpenUsable(rs: seq<Region>)
      requires Valid() && avail == {}
      requires forall r :: r in rs ==> r.end / FRAME_SIZE <= frames
      modifies this, bitmap
      ensures Valid() && avail == Opened(rs)
    {
      hide FreeIn, Span, DivCeil;
      assert rs[..0] == [];
      for k := 0 to |rs|
        invariant Valid() && avail == Opened(rs[..k])
      {
        MarkFreeRange(DivCeil(rs[k].start, FRAME_SIZE), rs[k].end / FRAME_SIZE);
        assert rs[..k + 1][..k] == rs[..k];
      }
      assert rs[..|rs|] == rs;
    }

    /** Hand out the lowest free frame; `Exhausted` exactly when none is free. */
    method Alloc() returns (r: Result<nat, FrameError>)
      requires Valid()
      modifies this, bitmap
      ensures Valid()
      ensures r.Ok? <==> old(avail) != {}
      ensures r.Err? ==> r.error == Exhausted && avail == old(avail)
      ensures r.Ok? ==>
        && r.value % FRAME_SIZE == 0
        && r.value / FRAME_SIZE in old(avail)
        && (forall j :: j in old(avail) ==> r.value / FRAME_SIZE <= j)
        && avail == old(avail) - {r.value / FRAME_SIZE}
    {
      hide FreeIn, Bit, SetBit, TrailingOnes;
      var wi := 0;
      while wi < bitmap.Length
        invariant 0 <= wi <= bitmap.Length
        invariant forall k :: 0 <= k < wi ==> bitmap[k] == WORD_MAX
      {
        if bitmap[wi] != WORD_MAX {
          var bit := TrailingOnes(bitmap[wi]);
          var idx := wi * 64 + bit;
          LowestFree(bitmap[..], wi);
          if idx >= frames {
            break;
          }
          SettingRemoves(bitmap[..], idx);
          bitmap[wi] := SetBit(bitmap[wi], bit);
          assert bitmap[..] == WithBitSet(old(bitmap[..]), idx);
          free, avail := free - 1, avail - {idx};
          return Ok(idx * FRAME_SIZE);
        }
        wi := wi + 1;
      }
      if wi == bitmap.Length {
        AllOnesIsEmpty(bitmap[..]);
      }
      return Err(Exhausted);
    }

    /** Return a frame. Every misuse is refused and changes nothing. */
    method Dealloc(addr: nat) returns (r: Result<(), FrameError>)
      requires Valid()
      modifies this, bitmap
      ensures Valid()
      ensures r.Ok? <==>
        addr % FRAME_SIZE == 0 && addr / FRAME_SIZE < frames && addr / FRAME_SIZE !in old(avail)
      ensures r.Ok? ==> avail == old(avail) + {addr / FRAME_SIZE}
      ensures r.Err? ==> avail == old(avail)
      ensures r.Err? ==>
        r.error == if addr % FRAME_SIZE != 0 || addr / FRAME_SIZE >= frames then OutOfRange else NotAllocated
    {
      if addr % FRAME_SIZE != 0 {
        return Err(OutOfRange);
      }
      var idx := addr / FRAME_SIZE;
      if idx >= frames {
        return Err(OutOfRange);
      }
      var wi, bit := idx / 64, idx % 64;
      assert idx in avail <==> Clear(bitmap[..], idx);
      if !Bit(bitmap[wi], bit) {
        return Err(NotAllocated);
      }
      ClearingAdds(bitmap[..], idx);
      Pow2Of64();
      BitOpsStayInRange(bitmap[wi], bit, 64);
      bitmap[wi] := ClearBit(bitmap[wi], bit);
      assert bitmap[..] == WithBitClear(old(bitmap[..]), idx);
      free, avail := free + 1, avail + {idx};
      return Ok(());
    }

    method MarkFreeRange(first: nat, last: nat)
      requires Valid() && last <= frames
      modifies this, bitmap
      ensures Valid() && avail == old(avail) + Span(first, last)
    {
      hide FreeIn, Span, FrameAlloc.Valid;
      var idx := first;
      EmptySpan(first, idx);
      while idx < last
        invariant first <= idx && (idx <= last || idx == first)
        invariant Valid() && avail == old(avail) + Span(first, idx)
      {
        MarkFree(idx);
        SpanStep(first, idx);
        idx := idx + 1;
      }
      EmptySpan(first, last);
    }

    method MarkUsedRange(first: nat, last: nat)
      requires Valid() && first <= last <= 64 * bitmap.Length
      modifies this, bitmap
      ensures Valid() && avail == old(avail) - Span(first, last)
    {
      var idx := first;
      while idx < last
        invariant first <= idx <= last
        invariant Valid()
        invariant forall i :: i in avail <==> i in old(avail) && !Within(first, idx, i)
      {
        MarkUsed(idx);
        idx := idx + 1;
      }
    }

    method MarkFree(idx: nat)
      requires Valid() && idx < frames
      modifies this, bitmap
      ensures Valid() && avail == old(avail) + {idx}
    {
      assert idx in avail <==> Clear(bitmap[..], idx);
      if Bit(bitmap[idx / 64], idx % 64) {
        ClearingAdds(bitmap[..], idx);
        Pow2Of64();
        BitOpsStayInRange(bitmap[idx / 64], idx % 64, 64);
        bitmap[idx / 64] := ClearBit(bitmap[idx / 64], idx % 64);
        assert bitmap[..] == WithBitClear(old(bitmap[..]), idx);
        free, avail := free + 1, avail + {idx};
      }
    }

    method MarkUsed(idx: nat)
      requires Valid() && idx < 64 * bitmap.Length
      modifies this, bitmap
      ensures Valid() && avail == old(avail) - {idx}
    {
      assert idx in avail <==> Clear(bitmap[..], idx);
      if !Bit(bitmap[idx / 64], idx % 64) {
        SettingRemoves(bitmap[..], idx);
        Pow2Of64();
        BitOpsStayInRange(bitmap[idx / 64], idx % 64, 64);
        bitmap[idx / 64] := SetBit(bitmap[idx / 64], idx % 64);
        assert bitmap[..] == WithBitSet(old(bitmap[..]), idx);
        free, avail := free - 1, avail - {idx};
      }
    }
  }

  /** The bitmap's own frames are frames the bitmap tracks. */
  lemma BitmapIsTracked(regions: seq<Region>)
    requires Bootable(regions)
    ensures BitmapFirst(regions) + BitmapFrames(regions) <= TotalFrames(regions)
    ensures 0 < TotalFrames(regions) <= 64 * BitmapWords(regions)
    ensures BitmapWords(regions) == DivCeil(TotalFrames(regions), 64)
  {
    var rs := Usable(regions);
    assert Largest(rs).end <= MaxEnd(rs);
  }

  // ----- whole runs -----

  datatype PoolOp = TakeFrame | GiveBack(which: nat)

  ghost function FramesOf(held: seq<nat>): set<nat> {
    set a | a in held :: a / FRAME_SIZE
  }

  /** Distinct page-aligned addresses, all naming frames of the pool. */
  ghost predicate HeldOnce(held: seq<nat>, pool: set<nat>) {
    && (forall i, j :: 0 <= i < j < |held| ==> held[i] != held[j])
    && (forall i :: 0 <= i < |held| ==> held[i] % FRAME_SIZE == 0 && held[i] / FRAME_SIZE in pool)
  }

  lemma DroppingOne(held: seq<nat>, which: nat, pool: set<nat>)
    requires HeldOnce(held, pool) && which < |held|
    ensures HeldOnce(held[..which] + held[which + 1..], pool)
    ensures FramesOf(held[..which] + held[which + 1..]) == FramesOf(held) - {held[which] / FRAME_SIZE}
    ensures held[which] / FRAME_SIZE in FramesOf(held)
  {
    var rest := held[..which] + held[which + 1..];
    assert forall i :: 0 <= i < |rest| ==> rest[i] == held[if i < which then i else i + 1];
    forall i | 0 <= i < |held| && i != which ensures held[i] in rest {
      assert rest[if i < which then i else i - 1] == held[i];
    }
    assert forall a :: a in rest ==> a in held && a / FRAME_SIZE != held[which] / FRAME_SIZE;
    assert held[which] in held;
  }

  lemma NothingHeld()
    ensures FramesOf([]) == {}
  {
  }

  lemma AddingOne(held: seq<nat>, a: nat, pool: set<nat>)
    requires HeldOnce(held, pool) && a % FRAME_SIZE == 0
    requires a / FRAME_SIZE in pool && a / FRAME_SIZE !in FramesOf(held)
    ensures HeldOnce(held + [a], pool)
    ensures FramesOf(held + [a]) == FramesOf(held) + {a / FRAME_SIZE}
  {
    var more := held + [a];
    assert more[|held|] == a && a in more;
    forall x | x in held ensures x in more && x != a {
      var i :| 0 <= i < |held| && held[i] == x;
      assert more[i] == x;
      assert x / FRAME_SIZE in FramesOf(held);
    }
    assert forall x :: x in more ==> x in held || x == a;
  }

  /** Any run of allocations and returns, returning only frames that are out: no
      frame is out twice, everything out came from the pool, and free and out
      together are always exactly the pool. */
  method Run(fa: FrameAlloc, ops: seq<PoolOp>, ghost pool: set<nat>) returns (held: seq<nat>)
    requires fa.Valid() && fa.avail == pool
    modifies fa, fa.bitmap
    ensures fa.Valid() && HeldOnce(held, pool)
    ensures fa.avail == pool - FramesOf(held)
    ensures fa.free + |held| == |pool|
  {
    hide FreeIn, FramesOf;
    held := [];
    NothingHeld();
    for n := 0 to |ops|
      invariant fa.Valid() && HeldOnce(held, pool)
      invariant forall i :: i in pool ==> i < fa.frames
      invariant fa.avail == pool - FramesOf(held)
      invariant fa.free + |held| == |pool|
    {
      match ops[n] {
        case TakeFrame =>
          var r := fa.Alloc();
          if r.Ok? {
            AddingOne(held, r.value, pool);
            held := held + [r.value];
          }
        case GiveBack(which) =>
          if which < |held| {
            DroppingOne(held, which, pool);
            var r := fa.Dealloc(held[which]);
            held := held[..which] + held[which + 1..];
          }
      }
    }
  }
}
