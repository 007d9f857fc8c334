/** The ELF64 file a linker writes, field by field in the order and at the width the
    format lays down, and what the validator makes of it (kernel/src/elf.rs). */
module ElfLayout {
  import opened Prelude
  import opened Elf

  type U16 = n: nat | n < 0x1_0000
  type U32 = n: nat | n < 0x1_0000_0000
  type U64Word = n: nat | n < 0x1_0000_0000_0000_0000

  /** Elf64_Phdr. */
  datatype ProgramHeader = ProgramHeader(kind: U32, flags: U32, offset: U64Word, vaddr: U64Word, paddr: U64Word,
                                         filesz: U64Word, memsz: U64Word, align: U64Word)

  /** Elf64_Ehdr after its sixteen identification bytes. */
  datatype FileHeader = FileHeader(kind: U16, machine: U16, version: U32, entry: U64Word, phoff: U64Word, shoff: U64Word,
                                   flags: U32, ehsize: U16, phentsize: U16, phnum: U16, shentsize: U16, shnum: U16, shstrndx: U16)

  /** The `n` bytes of a number, least significant first. */
  function Bytes(v: nat, n: nat): (b: seq<Byte>)
    ensures |b| == n
  {
    if n == 0 then [] else [v % 256] + Bytes(v / 256, n - 1)
  }

  lemma {:induction false} BytesRoundTrip(v: nat, n: nat)
    requires v < Width(n)
    ensures Le(Bytes(v, n)) == v
  {
    if n > 0 {
      assert v / 256 < Width(n - 1);
      BytesRoundTrip(v / 256, n - 1);
      assert Bytes(v, n)[1..] == Bytes(v / 256, n - 1);
    }
  }

  lemma Widths()
    ensures Width(2) == 0x1_0000 && Width(4) == 0x1_0000_0000 && Width(8) == 0x1_0000_0000_0000_0000
  {
    assert Width(1) == 256 && Width(2) == 0x1_0000 && Width(3) == 0x100_0000;
    assert Width(5) == 0x100_0000_0000 && Width(6) == 0x1_0000_0000_0000;
  }

  function Written(p: ProgramHeader): (b: seq<Byte>)
    ensures |b| == 56
  {
    Bytes(p.kind, 4) + (Bytes(p.flags, 4) + (Bytes(p.offset, 8) + (Bytes(p.vaddr, 8) + (Bytes(p.paddr, 8)
    + (Bytes(p.filesz, 8) + (Bytes(p.memsz, 8) + Bytes(p.align, 8)))))))
  }

  function Identification(rest: seq<Byte>): (b: seq<Byte>)
    requires |rest| == 9
    ensures |b| == 16
  {
    [0x7f, 'E' as nat, 'L' as nat, 'F' as nat, 2, 1, 1] + rest
  }

  function WrittenHeader(h: FileHeader): (b: seq<Byte>)
    ensures |b| == 48
  {
    Bytes(h.kind, 2) + (Bytes(h.machine, 2) + (Bytes(h.version, 4) + (Bytes(h.entry, 8) + (Bytes(h.phoff, 8) + (Bytes(h.shoff, 8)
    + (Bytes(h.flags, 4) + (Bytes(h.ehsize, 2) + (Bytes(h.phentsize, 2) + (Bytes(h.phnum, 2) + (Bytes(h.shentsize, 2)
    + (Bytes(h.shnum, 2) + Bytes(h.shstrndx, 2))))))))))))
  }

  /** One field read, and what is left to read. */
  lemma Field(b: File, off: nat, v: nat, n: nat, rest: seq<Byte>)
    requires off + n + |rest| <= |b| && v < Width(n) && b[off..off + n + |rest|] == Bytes(v, n) + rest
    ensures Rd(b, off, n) == Some(v)
    ensures b[off + n..off + n + |rest|] == rest
  {
    BytesRoundTrip(v, n);
    assert b[off..off + n] == b[off..off + n + |rest|][..n];
    assert b[off + n..off + n + |rest|] == b[off..off + n + |rest|][n..];
  }

  /** A program header read back is the one written, but for the two fields nobody
      reads. */
  lemma PhdrIsRead(b: File, base: nat, p: ProgramHeader)
    requires base + 56 <= |b| && b[base..base + 56] == Written(p)
    ensures PhdrAt(b, base) == Phdr(p.kind, p.flags, p.offset, p.vaddr, p.filesz, p.memsz)
  {
    hide Bytes, Width, Le;
    Widths();
    var t7 := Bytes(p.align, 8);
    var t6 := Bytes(p.memsz, 8) + t7;
    var t5 := Bytes(p.filesz, 8) + t6;
    var t4 := Bytes(p.paddr, 8) + t5;
    var t3 := Bytes(p.vaddr, 8) + t4;
    var t2 := Bytes(p.offset, 8) + t3;
    var t1 := Bytes(p.flags, 4) + t2;
    Field(b, base, p.kind, 4, t1);
    Field(b, base + 4, p.flags, 4, t2);
    Field(b, base + 8, p.offset, 8, t3);
    Field(b, base + 16, p.vaddr, 8, t4);
    Field(b, base + 24, p.paddr, 8, t5);
    Field(b, base + 32, p.filesz, 8, t6);
    Field(b, base + 40, p.memsz, 8, t7);
  }

  lemma FieldsAreRead(b: File, h: FileHeader)
    requires 64 <= |b| && b[16..64] == WrittenHeader(h)
    ensures Rd(b, 16, 2) == Some(h.kind) && Rd(b, 18, 2) == Some(h.machine) && Rd(b, 20, 4) == Some(h.version)
    ensures Rd(b, 24, 8) == Some(h.entry) && Rd(b, 32, 8) == Some(h.phoff)
    ensures Rd(b, 54, 2) == Some(h.phentsize) && Rd(b, 56, 2) == Some(h.phnum)
  {
    hide Bytes, Width, Le, Rd;
    Widths();
    var t12 := Bytes(h.shstrndx, 2);
    var t11 := Bytes(h.shnum, 2) + t12;
    var t10 := Bytes(h.shentsize, 2) + t11;
    var t9 := Bytes(h.phnum, 2) + t10;
    var t8 := Bytes(h.phentsize, 2) + t9;
    var t7 := Bytes(h.ehsize, 2) + t8;
    var t6 := Bytes(h.flags, 4) + t7;
    var t5 := Bytes(h.shoff, 8) + t6;
    var t4 := Bytes(h.phoff, 8) + t5;
    var t3 := Bytes(h.entry, 8) + t4;
    var t2 := Bytes(h.version, 4) + t3;
    var t1 := Bytes(h.machine, 2) + t2;
    Field(b, 16, h.kind, 2, t1);
    Field(b, 18, h.machine, 2, t2);
    Field(b, 20, h.version, 4, t3);
    Field(b, 24, h.entry, 8, t4);
    Field(b, 32, h.phoff, 8, t5);
    Field(b, 40, h.shoff, 8, t6);
    Field(b, 48, h.flags, 4, t7);
    Field(b, 52, h.ehsize, 2, t8);
    Field(b, 54, h.phentsize, 2, t9);
    Field(b, 56, h.phnum, 2, t10);
  }

  /** A file with this header at its start and these program headers where it says. */
  ghost predicate Holds(b: File, ident: seq<Byte>, h: FileHeader, phs: seq<ProgramHeader>) {
    && |ident| == 9 && 64 <= |b| && b[..16] == Identification(ident) && b[16..64] == WrittenHeader(h)
    && h.phnum == |phs| && h.phoff + 56 * |phs| <= |b|
    && forall i :: 0 <= i < |phs| ==> b[h.phoff + 56 * i..h.phoff + 56 * i + 56] == Written(phs[i])
  }

  /** A statically linked program for this machine. */
  predicate Native(h: FileHeader) {
    h.kind == 2 && h.machine == 62 && h.version == 1 && h.phentsize == 56 && h.phnum <= 16
  }

  lemma HeaderIsRead(b: File, ident: seq<Byte>, h: FileHeader, phs: seq<ProgramHeader>)
    requires Holds(b, ident, h, phs)
    ensures HeaderOf(b).Ok? <==> Native(h)
    ensures Native(h) ==> HeaderOf(b) == Ok(Header(h.entry, h.phoff, h.phnum))
  {
    hide WrittenHeader, Written, Rd;
    FieldsAreRead(b, h);
    assert b[0..4] == b[..16][..4] && b[4] == b[..16][4] && b[5] == b[..16][5] && b[6] == b[..16][6];
  }

  /** Why a well-formed header is refused: the first of its fields that is wrong. */
  lemma HeaderComplaint(b: File, ident: seq<Byte>, h: FileHeader, phs: seq<ProgramHeader>)
    requires Holds(b, ident, h, phs)
    ensures var r := HeaderOf(b);
      && (r == Err(NotExec) <==> h.kind != 2)
      && (r == Err(BadMachine) <==> h.kind == 2 && h.machine != 62)
      && (r == Err(BadVersion) <==> h.kind == 2 && h.machine == 62 && h.version != 1)
      && (r == Err(BadPhEntSize) <==> h.kind == 2 && h.machine == 62 && h.version == 1 && h.phentsize != 56)
      && (r == Err(TooManyPhdrs) <==> h.kind == 2 && h.machine == 62 && h.version == 1 && h.phentsize == 56 && h.phnum > 16)
  {
    hide WrittenHeader, Written, Rd;
    FieldsAreRead(b, h);
    assert b[0..4] == b[..16][..4] && b[4] == b[..16][4] && b[5] == b[..16][5] && b[6] == b[..16][6];
  }

  /** The segments the headers ask to have loaded, in their order. */
  function Asked(phs: seq<ProgramHeader>): seq<LoadSeg> {
    if phs == [] then []
    else
      var p := phs[|phs| - 1];
      Asked(phs[..|phs| - 1]) + if p.kind == 1 && p.memsz > 0 then [LoadSeg(p.vaddr, p.offset, p.filesz, p.memsz, p.flags)] else []
  }

  lemma {:induction false} AskedIsWanted(read: seq<Phdr>, phs: seq<ProgramHeader>, n: nat)
    requires n <= |read| == |phs|
    requires forall i :: 0 <= i < |phs| ==>
      read[i] == Phdr(phs[i].kind, phs[i].flags, phs[i].offset, phs[i].vaddr, phs[i].filesz, phs[i].memsz)
    ensures Wanted(read, n) == Asked(phs[..n])
  {
    if n > 0 {
      AskedIsWanted(read, phs, n - 1);
      assert phs[..n][..n - 1] == phs[..n - 1];
    }
  }

  /** What is accepted of a file as a linker writes it: a native program that asks for no
      interpreter, whose loadable segments form a good image with the entry point in an
      executable one; and the image is then exactly those segments and that entry. */
  lemma LinkedFileIsLoaded(b: File, ident: seq<Byte>, h: FileHeader, phs: seq<ProgramHeader>, lim: Limits)
    requires Holds(b, ident, h, phs) && lim.end < U64 && |b| < U64
    ensures Verdict(b, lim).Ok? <==>
      && Native(h) && (forall p :: p in phs ==> p.kind != 3)
      && Asked(phs) != [] && GoodImage(Asked(phs), |b|, lim) && EntryOk(Asked(phs), h.entry)
    ensures Verdict(b, lim).Ok? ==> Verdict(b, lim).value == Image(h.entry, Asked(phs))
  {
    hide Written, WrittenHeader, Identification, PhdrAt, HeaderOf, ScanError, GoodImage, EntryOk, Asked, Wanted;
    HeaderIsRead(b, ident, h, phs);
    AcceptedExactly(b, lim);
    if Native(h) {
      var read := Phdrs(b, HeaderOf(b).value);
      forall i | 0 <= i < |phs|
        ensures read[i] == Phdr(phs[i].kind, phs[i].flags, phs[i].offset, phs[i].vaddr, phs[i].filesz, phs[i].memsz)
      {
        PhdrIsRead(b, h.phoff + 56 * i, phs[i]);
      }
      AskedIsWanted(read, phs, |phs|);
      assert phs[..|phs|] == phs;
    }
  }

  /** The fault a complaint names is there, in program header `i` and the ones before. */
  ghost predicate Fault(phs: seq<Phdr>, fileLen: nat, lim: Limits, i: nat, e: ElfError) {
    && i < |phs|
    && var (p, loads) := (phs[i], phs[i].kind == 1 && phs[i].memsz > 0);
       match e
       case DynamicInterp => p.kind == 3
       case SegmentSizes => loads && p.filesz > p.memsz
       case SegmentFileRange => loads && p.offset + p.filesz > fileLen
       case SegmentUnaligned => loads && p.vaddr % 4096 != 0
       case SegmentOverflow => loads && p.vaddr + p.memsz >= U64
       case SegmentOutOfWindow => loads && (p.vaddr < lim.base || p.vaddr + p.memsz > lim.end)
       case BadFlags => loads && (!Readable(p.flags) || p.flags >= 8)
       case WxViolation => loads && Writable(p.flags) && Executable(p.flags)
       case SegmentOverlap => loads && exists a: nat :: Shares(phs, i, a)
       case TooLarge => loads && TotalPages(Wanted(phs, i + 1)) > lim.maxPages
       case _ => false
  }

  /** An address that header `i` and an earlier one both ask for. */
  ghost predicate Shares(phs: seq<Phdr>, i: nat, a: nat)
    requires i < |phs|
  {
    Asks(phs[i], a) && exists j :: 0 <= j < i && Asks(phs[j], a)
  }

  predicate Asks(p: Phdr, a: nat) {
    p.kind == 1 && p.vaddr <= a < p.vaddr + p.memsz
  }

  /** No complaint without its fault: what the scan refuses a file for is wrong with one
      of its program headers. */
  lemma {:induction false} ComplaintIsTrue(phs: seq<Phdr>, fileLen: nat, lim: Limits, n: nat)
    requires n <= |phs| && fileLen < U64
    ensures ScanError(phs, fileLen, lim, n).Some? ==>
      exists i :: 0 <= i < n && Fault(phs, fileLen, lim, i, ScanError(phs, fileLen, lim, n).value)
  {
    if n > 0 {
      hide Fault, SegmentError;
      ComplaintIsTrue(phs, fileLen, lim, n - 1);
      if ScanError(phs, fileLen, lim, n - 1).None? && ScanError(phs, fileLen, lim, n).Some? {
        OneFault(phs, fileLen, lim, n - 1);
      }
    }
  }

  lemma OneFault(phs: seq<Phdr>, fileLen: nat, lim: Limits, i: nat)
    requires i < |phs| && fileLen < U64
    ensures phs[i].kind == PT_INTERP ==> Fault(phs, fileLen, lim, i, DynamicInterp)
    ensures var e := SegmentError(phs[i], fileLen, lim, Wanted(phs, i));
            Loadable(phs[i]) && e.Some? ==> Fault(phs, fileLen, lim, i, e.value)
  {
    hide TotalPages, Overlaps, Shares, Wanted, Readable, Writable, Executable, Pages;
    var prior := Wanted(phs, i);
    WantedStep(phs, i);
    TotalMore(prior, SegOf(phs[i]));
    if Loadable(phs[i]) {
      forall k: nat | k < |prior| && Overlaps(SegOf(phs[i]), prior[k]) { OverlapIsShared(phs, i, k); }
    }
  }

  lemma OverlapIsShared(phs: seq<Phdr>, i: nat, k: nat)
    requires i < |phs| && Loadable(phs[i]) && k < |Wanted(phs, i)| && Overlaps(SegOf(phs[i]), Wanted(phs, i)[k])
    ensures exists a: nat :: Shares(phs, i, a)
  {
    var j := WantedFrom(phs, i, k);
    var a := if phs[i].vaddr < phs[j].vaddr then phs[j].vaddr else phs[i].vaddr;
    assert Asks(phs[j], a) && Asks(phs[i], a);
    assert Shares(phs, i, a);
  }

  lemma {:induction false} WantedFrom(phs: seq<Phdr>, n: nat, k: nat) returns (j: nat)
    requires n <= |phs| && k < |Wanted(phs, n)|
    ensures j < n && Loadable(phs[j]) && Wanted(phs, n)[k] == SegOf(phs[j])
  {
    if k < |Wanted(phs, n - 1)| { j := WantedFrom(phs, n - 1, k); } else { j := n - 1; }
  }

  /** The three permission bits of a segment's flags. */
  lemma FlagBits(flags: nat)
    requires flags < 8
    ensures flags == (if Readable(flags) then 4 else 0) + (if Writable(flags) then 2 else 0) + (if Executable(flags) then 1 else 0)
  {
  }
}
