/** The strict ELF64 validator (kernel/src/elf.rs): what it accepts, exactly, and
    what acceptance guarantees. */
module Elf {
  import opened Prelude

  const PAGE: nat := 4096
  const U64: nat := 0x1_0000_0000_0000_0000
  const EHDR_SIZE: nat := 64
  const PHDR_SIZE: nat := 56
  const MAX_PHDRS: nat := 16
  const MAX_LOAD_SEGS: nat := 16
  const ET_EXEC: nat := 2
  const EM_X86_64: nat := 62
  const PT_LOAD: nat := 1
  const PT_INTERP: nat := 3

  datatype ElfError =
    | TooSmall | BadMagic | BadClass | BadData | BadVersion | NotExec | BadMachine | BadPhEntSize | TooManyPhdrs
    | PhdrsOutOfBounds | NoLoadable | DynamicInterp | SegmentFileRange | SegmentSizes | SegmentUnaligned
    | SegmentOverflow | SegmentOutOfWindow | SegmentOverlap | BadFlags | WxViolation | TooLarge | BadEntry

  type File = seq<Byte>

  datatype LoadSeg = LoadSeg(vaddr: nat, offset: nat, filesz: nat, memsz: nat, flags: nat)

  datatype Image = Image(entry: nat, segs: seq<LoadSeg>)

  /** The fields of one program header that the loader reads. */
  datatype Phdr = Phdr(kind: nat, flags: nat, offset: nat, vaddr: nat, filesz: nat, memsz: nat)

  datatype Header = Header(entry: nat, phoff: nat, phnum: nat)

  // ----- little-endian reads -----

  function Width(n: nat): (w: nat)
    ensures w > 0
  {
    if n == 0 then 1 else 256 * Width(n - 1)
  }

  function Le(b: seq<Byte>): (v: nat)
    ensures v < Width(|b|)
  {
    if b == [] then 0 else b[0] + 256 * Le(b[1..])
  }

  /** `rd_u16`, `rd_u32`, `rd_u64`: `None` when the field runs past the end. */
  function Rd(b: File, off: nat, n: nat): (r: Option<nat>)
    ensures r.Some? <==> off + n <= |b|
    ensures r.Some? ==> r.value < Width(n)
  {
    if off + n <= |b| then Some(Le(b[off..off + n])) else None
  }

  predicate Executable(flags: nat) { flags % 2 == 1 }
  predicate Writable(flags: nat) { flags / 2 % 2 == 1 }
  predicate Readable(flags: nat) { flags / 4 % 2 == 1 }

  /** `memsz.div_ceil(PAGE)`. */
  function Pages(seg: LoadSeg): nat {
    (seg.memsz + PAGE - 1) / PAGE
  }

  // ----- the header -----

  function HeaderOf(b: File): (r: Result<Header, ElfError>)
    ensures r.Ok? ==> r.value.phnum <= MAX_PHDRS && r.value.phoff + r.value.phnum * PHDR_SIZE <= |b|
  {
    if |b| < EHDR_SIZE then Err(TooSmall)
    else if b[0..4] != [0x7f, 69, 76, 70] then Err(BadMagic)
    else if b[4] != 2 then Err(BadClass)
    else if b[5] != 1 then Err(BadData)
    else if b[6] != 1 then Err(BadVersion)
    else if Rd(b, 16, 2) != Some(ET_EXEC) then Err(NotExec)
    else if Rd(b, 18, 2) != Some(EM_X86_64) then Err(BadMachine)
    else if Rd(b, 20, 4) != Some(1) then Err(BadVersion)
    else
      var phoff, phnum := Rd(b, 32, 8).value, Rd(b, 56, 2).value;
      if Rd(b, 54, 2) != Some(PHDR_SIZE) then Err(BadPhEntSize)
      else if phnum > MAX_PHDRS then Err(TooManyPhdrs)
      else if phoff + phnum * PHDR_SIZE > |b| then Err(PhdrsOutOfBounds)
      else Ok(Header(Rd(b, 24, 8).value, phoff, phnum))
  }

  function PhdrAt(b: File, base: nat): Phdr
    requires base + PHDR_SIZE <= |b|
  {
    Phdr(Rd(b, base, 4).value, Rd(b, base + 4, 4).value, Rd(b, base + 8, 8).value, Rd(b, base + 16, 8).value,
         Rd(b, base + 32, 8).value, Rd(b, base + 40, 8).value)
  }

  function Phdrs(b: File, h: Header): (r: seq<Phdr>)
    requires h.phoff + h.phnum * PHDR_SIZE <= |b|
    ensures |r| == h.phnum
  {
    seq(h.phnum, i requires 0 <= i < h.phnum => PhdrAt(b, h.phoff + i * PHDR_SIZE))
  }

  // ----- the segments -----

  predicate Loadable(ph: Phdr) { ph.kind == PT_LOAD && ph.memsz != 0 }

  function SegOf(ph: Phdr): LoadSeg {
    LoadSeg(ph.vaddr, ph.offset, ph.filesz, ph.memsz, ph.flags)
  }

  /** The loadable segments among the first `n` headers, in file order. */
  function Wanted(phs: seq<Phdr>, n: nat): seq<LoadSeg>
    requires n <= |phs|
  {
    if n == 0 then [] else Wanted(phs, n - 1) + if Loadable(phs[n - 1]) then [SegOf(phs[n - 1])] else []
  }

  function TotalPages(segs: seq<LoadSeg>): nat {
    if segs == [] then 0 else TotalPages(segs[..|segs| - 1]) + Pages(segs[|segs| - 1])
  }

  predicate Overlaps(a: LoadSeg, b: LoadSeg) {
    a.vaddr < b.vaddr + b.memsz && b.vaddr < a.vaddr + a.memsz
  }

  datatype Limits = Limits(base: nat, end: nat, maxPages: nat)

  /** The first complaint about one loadable header, after `prior` were accepted. */
  function SegmentError(ph: Phdr, fileLen: nat, lim: Limits, prior: seq<LoadSeg>): Option<ElfError> {
    if ph.filesz > ph.memsz then Some(SegmentSizes)
    else if ph.offset + ph.filesz >= U64 || ph.offset + ph.filesz > fileLen then Some(SegmentFileRange)
    else if ph.vaddr % PAGE != 0 then Some(SegmentUnaligned)
    else if ph.vaddr + ph.memsz >= U64 then Some(SegmentOverflow)
    else if ph.vaddr < lim.base || ph.vaddr + ph.memsz > lim.end then Some(SegmentOutOfWindow)
    else if !Readable(ph.flags) || ph.flags >= 8 then Some(BadFlags)
    else if Writable(ph.flags) && Executable(ph.flags) then Some(WxViolation)
    else if exists k :: 0 <= k < |prior| && Overlaps(SegOf(ph), prior[k]) then Some(SegmentOverlap)
    else if TotalPages(prior) + Pages(SegOf(ph)) > lim.maxPages then Some(TooLarge)
    else None
  }

  /** The first complaint among the first `n` headers, in order. */
  function ScanError(phs: seq<Phdr>, fileLen: nat, lim: Limits, n: nat): Option<ElfError>
    requires n <= |phs|
  {
    if n == 0 then None
    else
      var before := ScanError(phs, fileLen, lim, n - 1);
      if before.Some? then before
      else if phs[n - 1].kind == PT_INTERP then Some(DynamicInterp)
      else if !Loadable(phs[n - 1]) then None
      else SegmentError(phs[n - 1], fileLen, lim, Wanted(phs, n - 1))
  }

  predicate EntryOk(segs: seq<LoadSeg>, entry: nat) {
    exists k :: 0 <= k < |segs| && Executable(segs[k].flags) && segs[k].vaddr <= entry < segs[k].vaddr + segs[k].memsz
  }

  /** The verdict, by its first complaint. */
  function Verdict(b: File, lim: Limits): Result<Image, ElfError> {
    match HeaderOf(b)
    case Err(e) => Err(e)
    case Ok(h) =>
      var phs := Phdrs(b, h);
      var complaint := ScanError(phs, |b|, lim, |phs|);
      if complaint.Some? then Err(complaint.value)
      else if Wanted(phs, |phs|) == [] then Err(NoLoadable)
      else if !EntryOk(Wanted(phs, |phs|), h.entry) then Err(BadEntry)
      else Ok(Image(h.entry, Wanted(phs, |phs|)))
  }

  /** `parse`: one pass over the headers, with the accepted segments in a fixed array
      and a running page count. */
  method Parse(b: File, lim: Limits) returns (r: Result<Image, ElfError>)
    ensures r == Verdict(b, lim)
  {
    hide ScanError, SegmentError, Overlaps, TotalPages, Wanted, EntryOk, HeaderOf, PhdrAt;
    var head := HeaderOf(b);
    if head.Err? {
      return Err(head.error);
    }
    var h := head.value;
    ghost var phs := Phdrs(b, h);
    var segs := new LoadSeg[MAX_LOAD_SEGS](_ => LoadSeg(0, 0, 0, 0, 0));
    var nsegs, totalPages := 0, 0;
    NothingScanned(phs, |b|, lim);
    for i := 0 to h.phnum
      invariant nsegs <= i && segs[..nsegs] == Wanted(phs, i) && totalPages == TotalPages(segs[..nsegs])
      invariant ScanError(phs, |b|, lim, i) == None
    {
      ScanMore(phs, |b|, lim, i);
      LaterComplaints(phs, |b|, lim, i + 1, |phs|);
      var ph := PhdrAt(b, h.phoff + i * PHDR_SIZE);
      if ph.kind == PT_INTERP {
        return Err(DynamicInterp);
      }
      if ph.kind != PT_LOAD || ph.memsz == 0 {
        continue;
      }
      var complaint := Check(ph, |b|, lim, segs, nsegs, totalPages);
      if complaint.Some? {
        return Err(complaint.value);
      }
      totalPages := totalPages + Pages(SegOf(ph));
      TotalMore(segs[..nsegs], SegOf(ph));
      segs[nsegs] := SegOf(ph);
      nsegs := nsegs + 1;
    }
    if nsegs == 0 {
      return Err(NoLoadable);
    }
    var found := HasEntry(segs, nsegs, h.entry);
    return if found then Ok(Image(h.entry, segs[..nsegs])) else Err(BadEntry);
  }

  method HasEntry(segs: array<LoadSeg>, nsegs: nat, entry: nat) returns (found: bool)
    requires nsegs <= segs.Length
    ensures found <==> EntryOk(segs[..nsegs], entry)
  {
    for k := 0 to nsegs
      invariant forall j :: 0 <= j < k ==> !(Executable(segs[j].flags) && segs[j].vaddr <= entry < segs[j].vaddr + segs[j].memsz)
    {
      if Executable(segs[k].flags) && segs[k].vaddr <= entry < segs[k].vaddr + segs[k].memsz {
        assert segs[..nsegs][k] == segs[k];
        return true;
      }
    }
    return false;
  }

  /** The checks on one segment, overlap by a walk over the accepted ones. */
  method Check(ph: Phdr, fileLen: nat, lim: Limits, segs: array<LoadSeg>, nsegs: nat, totalPages: nat)
    returns (complaint: Option<ElfError>)
    requires nsegs <= segs.Length && totalPages == TotalPages(segs[..nsegs])
    ensures complaint == SegmentError(ph, fileLen, lim, segs[..nsegs])
  {
    if ph.filesz > ph.memsz {
      return Some(SegmentSizes);
    }
    if ph.offset + ph.filesz >= U64 || ph.offset + ph.filesz > fileLen {
      return Some(SegmentFileRange);
    }
    if ph.vaddr % PAGE != 0 {
      return Some(SegmentUnaligned);
    }
    if ph.vaddr + ph.memsz >= U64 {
      return Some(SegmentOverflow);
    }
    if ph.vaddr < lim.base || ph.vaddr + ph.memsz > lim.end {
      return Some(SegmentOutOfWindow);
    }
    if !Readable(ph.flags) || ph.flags >= 8 {
      return Some(BadFlags);
    }
    if Writable(ph.flags) && Executable(ph.flags) {
      return Some(WxViolation);
    }
    for k := 0 to nsegs
      invariant forall j :: 0 <= j < k ==> !Overlaps(SegOf(ph), segs[j])
    {
      if ph.vaddr < segs[k].vaddr + segs[k].memsz && segs[k].vaddr < ph.vaddr + ph.memsz {
        assert Overlaps(SegOf(ph), segs[..nsegs][k]);
        return Some(SegmentOverlap);
      }
    }
    if totalPages + Pages(SegOf(ph)) > lim.maxPages {
      return Some(TooLarge);
    }
    return None;
  }

  lemma NothingScanned(phs: seq<Phdr>, fileLen: nat, lim: Limits)
    ensures ScanError(phs, fileLen, lim, 0) == None && Wanted(phs, 0) == [] && TotalPages([]) == 0
  {
  }

  lemma ScanMore(phs: seq<Phdr>, fileLen: nat, lim: Limits, i: nat)
    requires i < |phs| && ScanError(phs, fileLen, lim, i) == None
    ensures ScanError(phs, fileLen, lim, i + 1)
         == if phs[i].kind == PT_INTERP then Some(DynamicInterp) else if !Loadable(phs[i]) then None
            else SegmentError(phs[i], fileLen, lim, Wanted(phs, i))
    ensures Wanted(phs, i + 1) == if Loadable(phs[i]) then Wanted(phs, i) + [SegOf(phs[i])] else Wanted(phs, i)
  {
  }

  /** A complaint stands whatever follows. */
  lemma {:induction false} LaterComplaints(phs: seq<Phdr>, fileLen: nat, lim: Limits, i: nat, n: nat)
    requires i <= n <= |phs|
    ensures ScanError(phs, fileLen, lim, i).Some? ==> ScanError(phs, fileLen, lim, n) == ScanError(phs, fileLen, lim, i)
  {
    if i < n { LaterComplaints(phs, fileLen, lim, i, n - 1); }
  }

  lemma TotalMore(segs: seq<LoadSeg>, s: LoadSeg)
    ensures TotalPages(segs + [s]) == TotalPages(segs) + Pages(s)
  {
    assert (segs + [s])[..|segs|] == segs;
  }

  // ----- what acceptance means -----

  /** A segment the loader may carry out against a file of this length. */
  predicate Sound(s: LoadSeg, fileLen: nat, lim: Limits) {
    && 0 < s.memsz && s.filesz <= s.memsz && s.offset + s.filesz <= fileLen
    && s.vaddr % PAGE == 0 && lim.base <= s.vaddr && s.vaddr + s.memsz <= lim.end
    && Readable(s.flags) && s.flags < 8 && !(Writable(s.flags) && Executable(s.flags))
  }

  predicate Apart(segs: seq<LoadSeg>) {
    forall i, j :: 0 <= i < j < |segs| ==> !Overlaps(segs[j], segs[i])
  }

  /** Everything acceptance promises about the image. */
  predicate GoodImage(segs: seq<LoadSeg>, fileLen: nat, lim: Limits) {
    (forall k :: 0 <= k < |segs| ==> Sound(segs[k], fileLen, lim)) && Apart(segs) && TotalPages(segs) <= lim.maxPages
  }

  lemma SegmentAccepted(ph: Phdr, fileLen: nat, lim: Limits, prior: seq<LoadSeg>)
    requires lim.end < U64 && fileLen < U64 && ph.memsz != 0
    ensures SegmentError(ph, fileLen, lim, prior).None? <==>
      && Sound(SegOf(ph), fileLen, lim) && (forall k :: 0 <= k < |prior| ==> !Overlaps(SegOf(ph), prior[k]))
      && TotalPages(prior) + Pages(SegOf(ph)) <= lim.maxPages
  {
  }

  lemma WantedStep(phs: seq<Phdr>, n: nat)
    requires n < |phs|
    ensures Wanted(phs, n + 1) == if Loadable(phs[n]) then Wanted(phs, n) + [SegOf(phs[n])] else Wanted(phs, n)
  {
  }

  /** The scan finds nothing to complain of exactly when no header asks for an
      interpreter and the loadable ones form a good image. */
  lemma {:induction false} ScanAccepts(phs: seq<Phdr>, fileLen: nat, lim: Limits, n: nat)
    requires n <= |phs| && lim.end < U64 && fileLen < U64
    ensures ScanError(phs, fileLen, lim, n).None? <==>
      (forall i :: 0 <= i < n ==> phs[i].kind != PT_INTERP) && GoodImage(Wanted(phs, n), fileLen, lim)
  {
    if n > 0 {
      hide Sound, Wanted, GoodImage, SegmentError, TotalPages;
      ScanAccepts(phs, fileLen, lim, n - 1);
      WantedStep(phs, n - 1);
      if Loadable(phs[n - 1]) { OneMoreAccepted(phs[n - 1], fileLen, lim, Wanted(phs, n - 1)); }
    }
  }

  lemma OneMoreAccepted(ph: Phdr, fileLen: nat, lim: Limits, prior: seq<LoadSeg>)
    requires lim.end < U64 && fileLen < U64 && ph.memsz != 0
    ensures GoodImage(prior + [SegOf(ph)], fileLen, lim) <==>
      GoodImage(prior, fileLen, lim) && SegmentError(ph, fileLen, lim, prior).None?
  {
    hide Sound, GoodImage, SegmentError, TotalPages, Overlaps, Pages;
    SegmentAccepted(ph, fileLen, lim, prior);
    TotalMore(prior, SegOf(ph));
    GoodImageMore(prior, SegOf(ph), fileLen, lim);
  }

  lemma GoodImageMore(prior: seq<LoadSeg>, s: LoadSeg, fileLen: nat, lim: Limits)
    requires TotalPages(prior + [s]) == TotalPages(prior) + Pages(s)
    ensures GoodImage(prior + [s], fileLen, lim) <==>
      && GoodImage(prior, fileLen, lim) && Sound(s, fileLen, lim) && (forall k :: 0 <= k < |prior| ==> !Overlaps(s, prior[k]))
      && TotalPages(prior) + Pages(s) <= lim.maxPages
  {
    hide Sound, Overlaps, TotalPages;
    var all := prior + [s];
    assert forall k :: 0 <= k < |prior| ==> all[k] == prior[k];
    assert all[|prior|] == s;
  }

  /** Accepted files, exactly: a readable header, no interpreter, a good image that is
      not empty, and an entry point in an executable segment. */
  lemma AcceptedExactly(b: File, lim: Limits)
    requires lim.end < U64 && |b| < U64
    ensures Verdict(b, lim).Ok? <==>
      && HeaderOf(b).Ok?
      && var phs := Phdrs(b, HeaderOf(b).value);
         && (forall i :: 0 <= i < |phs| ==> phs[i].kind != PT_INTERP)
         && Wanted(phs, |phs|) != [] && GoodImage(Wanted(phs, |phs|), |b|, lim)
         && EntryOk(Wanted(phs, |phs|), HeaderOf(b).value.entry)
    ensures Verdict(b, lim).Ok? ==>
      && GoodImage(Verdict(b, lim).value.segs, |b|, lim) && |Verdict(b, lim).value.segs| <= MAX_LOAD_SEGS
      && EntryOk(Verdict(b, lim).value.segs, Verdict(b, lim).value.entry)
  {
    hide ScanError, GoodImage, EntryOk, PhdrAt;
    if HeaderOf(b).Ok? {
      var phs := Phdrs(b, HeaderOf(b).value);
      ScanAccepts(phs, |b|, lim, |phs|);
      WantedSize(phs, |phs|);
    }
  }

  lemma {:induction false} WantedSize(phs: seq<Phdr>, n: nat)
    requires n <= |phs|
    ensures |Wanted(phs, n)| <= n
  {
    if n > 0 { WantedSize(phs, n - 1); }
  }

  // ----- pages -----

  /** The address of page `i` of a segment. */
  function PageVa(s: LoadSeg, i: nat): nat { s.vaddr + i * PAGE }

  /** Byte-disjoint segments on page boundaries are page-disjoint. */
  lemma PagesApart(a: LoadSeg, b: LoadSeg, i: nat, j: nat)
    requires a.vaddr % PAGE == 0 && b.vaddr % PAGE == 0 && 0 < a.memsz && 0 < b.memsz && !Overlaps(a, b)
    requires i < Pages(a) && j < Pages(b)
    ensures PageVa(a, i) != PageVa(b, j)
  {
    if a.vaddr + a.memsz <= b.vaddr {
      PageBeforeEnd(a, i, b.vaddr);
    } else {
      PageBeforeEnd(b, j, a.vaddr);
    }
  }

  /** No page of a segment reaches a page boundary at or past the segment's end. */
  lemma PageBeforeEnd(s: LoadSeg, i: nat, limit: nat)
    requires s.vaddr % PAGE == 0 && limit % PAGE == 0 && s.vaddr + s.memsz <= limit && i < Pages(s)
    ensures PageVa(s, i) + PAGE <= limit
  {
    var p, q := s.vaddr / PAGE, limit / PAGE;
    assert s.vaddr == p * PAGE && limit == q * PAGE;
    assert i * PAGE < s.memsz;
  }
}
