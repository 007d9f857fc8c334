/** The two DMA page-table entry formats (kernel/src/iommu.rs): Intel VT-d
    second-stage entries and AMD-Vi I/O page-table entries. Words are numbers
    below 2^64; each mask, shift and OR of disjoint fields is written as the
    arithmetic it denotes, which the two `bv64` lemmas at the end confirm. */
module IommuPte {
  import opened Prelude
  import opened Words

  const ADDR_LIMIT: nat := 0x10_0000_0000_0000
  const AMD_IR: nat := 0x2000_0000_0000_0000
  const AMD_IW: nat := 0x4000_0000_0000_0000

  datatype PteFmt = Vtd | AmdVi

  /** What one present leaf says: the frame, and the two permissions. */
  datatype Leaf = Leaf(frame: nat, read: bool, write: bool)

  /** `x & SL_ADDR_MASK`: bits [51:12]. */
  function AddrField(x: nat): (a: nat)
    ensures a % 4096 == 0 && a < ADDR_LIMIT
    ensures x % 4096 == 0 && x < ADDR_LIMIT ==> a == x
  {
    x / 4096 % 0x100_0000_0000 * 4096
  }

  // ----- what the walker code reads and writes -----

  function Present(fmt: PteFmt, entry: nat): bool {
    match fmt
    case Vtd => entry % 4 != 0
    case AmdVi => entry % 2 == 1
  }

  function Decode(fmt: PteFmt, entry: nat): (bool, nat) {
    (Present(fmt, entry), AddrField(entry))
  }

  function EncodeLeaf(fmt: PteFmt, phys: nat, perms: nat): Word {
    match fmt
    case Vtd => AddrField(phys) + perms % 4
    case AmdVi =>
      1 + AddrField(phys)
      + (if perms % 2 == 1 then AMD_IR else 0)
      + (if perms / 2 % 2 == 1 then AMD_IW else 0)
  }

  /** A link to a child table; `nextLevel` counts the levels below it. */
  function EncodeLink(fmt: PteFmt, child: nat, nextLevel: nat): Word {
    match fmt
    case Vtd => AddrField(child) + 3
    case AmdVi => 1 + AMD_IR + AMD_IW + AddrField(child) + nextLevel % 8 * 512
  }

  // ----- how the hardware reads an entry, from the two formats' definitions -----

  function HwRead(fmt: PteFmt, entry: nat): bool {
    match fmt
    case Vtd => entry % 2 == 1
    case AmdVi => entry / AMD_IR % 2 == 1
  }

  function HwWrite(fmt: PteFmt, entry: nat): bool {
    match fmt
    case Vtd => entry / 2 % 2 == 1
    case AmdVi => entry / AMD_IW % 2 == 1
  }

  /** Is this entry of a table at `level` a page, or a table one level down?
      VT-d decides by level alone; AMD-Vi by the Next Level field. */
  function HwIsPage(fmt: PteFmt, entry: nat, level: nat): bool {
    match fmt
    case Vtd => level == 1
    case AmdVi => entry / 512 % 8 == 0
  }

  function HwIsNextTable(fmt: PteFmt, entry: nat, level: nat): bool {
    match fmt
    case Vtd => level > 1
    case AmdVi => level > 1 && entry / 512 % 8 == level - 1
  }

  /** The leaf an entry denotes, if it is present. */
  function LeafOf(fmt: PteFmt, entry: nat): Option<Leaf> {
    if Present(fmt, entry)
    then Some(Leaf(AddrField(entry), HwRead(fmt, entry), HwWrite(fmt, entry)))
    else None
  }

  /** Mapping with permissions `perms`: a VT-d entry naming neither permission
      is not present at all; an AMD-Vi one is present and grants nothing. */
  function LeafMapped(fmt: PteFmt, phys: nat, perms: nat): Option<Leaf> {
    if fmt.Vtd? && perms % 4 == 0 then None
    else Some(Leaf(AddrField(phys), perms % 2 == 1, perms / 2 % 2 == 1))
  }

  /** Field extraction from an AMD-Vi word: 12 low bits, 40 address bits, then
      the two permission bits at 61 and 62. */
  lemma AmdLowFields(low: nat, f: nat, hi: nat)
    requires low < 4096 && f < 0x100_0000_0000
    ensures (low + 4096 * f + AMD_IR * hi) % 2 == low % 2
    ensures (low + 4096 * f + AMD_IR * hi) / 512 % 8 == low / 512
    ensures AddrField(low + 4096 * f + AMD_IR * hi) == 4096 * f
  {
    var rest := f + 0x2_0000_0000_0000 * hi;
    assert low + 4096 * f + AMD_IR * hi == low + 4096 * rest;
    LowPart(low, rest);
    QuotientIsUnique(rest, 0x100_0000_0000, 0x200 * hi, f);
  }

  lemma LowPart(low: nat, rest: nat)
    requires low < 4096
    ensures (low + 4096 * rest) % 2 == low % 2
    ensures (low + 4096 * rest) / 512 % 8 == low / 512
    ensures (low + 4096 * rest) / 4096 == rest
  {
    var q, r := low / 512, low % 512;
    var e := low + 4096 * rest;
    QuotientIsUnique(e, 4096, rest, low);
    QuotientIsUnique(e, 512, q + 8 * rest, r);
    QuotientIsUnique(q + 8 * rest, 8, rest, q);
    QuotientIsUnique(e, 2, low / 2 + 2048 * rest, low % 2);
  }

  lemma AmdHighFields(low: nat, f: nat, hi: nat)
    requires low < 4096 && f < 0x100_0000_0000 && hi < 4
    ensures (low + 4096 * f + AMD_IR * hi) / AMD_IR % 2 == hi % 2
    ensures (low + 4096 * f + AMD_IR * hi) / AMD_IW % 2 == hi / 2
  {
    var e := low + 4096 * f + AMD_IR * hi;
    assert low + 4096 * f < AMD_IR;
    QuotientIsUnique(e, AMD_IR, hi, low + 4096 * f);
    QuotientIsUnique(e, AMD_IW, hi / 2, low + 4096 * f + AMD_IR * (hi % 2));
  }

  lemma LeafRoundTrip(fmt: PteFmt, phys: nat, perms: nat)
    ensures LeafOf(fmt, EncodeLeaf(fmt, phys, perms)) == LeafMapped(fmt, phys, perms)
    ensures HwIsPage(fmt, EncodeLeaf(fmt, phys, perms), 1)
    ensures Decode(fmt, EncodeLeaf(fmt, phys, perms))
         == (LeafMapped(fmt, phys, perms).Some?, AddrField(phys))
  {
    match fmt {
      case Vtd => VtdLeaf(phys, perms);
      case AmdVi => AmdLeaf(phys, perms);
    }
  }

  lemma VtdLeaf(phys: nat, perms: nat)
    ensures var e := EncodeLeaf(Vtd, phys, perms);
            && LeafOf(Vtd, e) == LeafMapped(Vtd, phys, perms) && HwIsPage(Vtd, e, 1)
            && Decode(Vtd, e) == (LeafMapped(Vtd, phys, perms).Some?, AddrField(phys))
  {
    VtdFields(perms % 4, phys / 4096 % 0x100_0000_0000);
  }

  lemma AmdLeaf(phys: nat, perms: nat)
    ensures var e := EncodeLeaf(AmdVi, phys, perms);
            && LeafOf(AmdVi, e) == LeafMapped(AmdVi, phys, perms) && HwIsPage(AmdVi, e, 1)
            && Decode(AmdVi, e) == (LeafMapped(AmdVi, phys, perms).Some?, AddrField(phys))
  {
    var f := phys / 4096 % 0x100_0000_0000;
    var hi := perms % 4;
    assert perms / 2 % 2 == hi / 2 && perms % 2 == hi % 2;
    assert EncodeLeaf(AmdVi, phys, perms) == 1 + 4096 * f + AMD_IR * hi;
    AmdLowFields(1, f, hi);
    AmdHighFields(1, f, hi);
  }

  lemma VtdFields(low: nat, f: nat)
    requires low < 4 && f < 0x100_0000_0000
    ensures (4096 * f + low) % 4 == low
    ensures (4096 * f + low) % 2 == low % 2
    ensures (4096 * f + low) / 2 % 2 == low / 2
    ensures AddrField(4096 * f + low) == 4096 * f
  {
    var e := 4096 * f + low;
    QuotientIsUnique(e, 4096, f, low);
    QuotientIsUnique(e, 4, 1024 * f, low);
    QuotientIsUnique(e, 2, 2048 * f + low / 2, low % 2);
    QuotientIsUnique(2048 * f + low / 2, 2, 1024 * f, low / 2);
    QuotientIsUnique(f, 0x100_0000_0000, 0, f);
  }

  lemma LinkRoundTrip(fmt: PteFmt, child: nat, nextLevel: nat)
    requires nextLevel < 8
    ensures Decode(fmt, EncodeLink(fmt, child, nextLevel)) == (true, AddrField(child))
    ensures HwRead(fmt, EncodeLink(fmt, child, nextLevel))
    ensures HwWrite(fmt, EncodeLink(fmt, child, nextLevel))
    ensures nextLevel > 0 ==> HwIsNextTable(fmt, EncodeLink(fmt, child, nextLevel), nextLevel + 1)
    ensures nextLevel > 0 ==> !HwIsPage(fmt, EncodeLink(fmt, child, nextLevel), nextLevel + 1)
  {
    match fmt {
      case Vtd => VtdLink(child, nextLevel);
      case AmdVi => AmdLink(child, nextLevel);
    }
  }

  lemma VtdLink(child: nat, nextLevel: nat)
    ensures var e := EncodeLink(Vtd, child, nextLevel);
            && Decode(Vtd, e) == (true, AddrField(child)) && HwRead(Vtd, e) && HwWrite(Vtd, e)
  {
    VtdFields(3, child / 4096 % 0x100_0000_0000);
  }

  lemma AmdLink(child: nat, nextLevel: nat)
    requires nextLevel < 8
    ensures var e := EncodeLink(AmdVi, child, nextLevel);
            && Decode(AmdVi, e) == (true, AddrField(child)) && HwRead(AmdVi, e) && HwWrite(AmdVi, e)
            && e / 512 % 8 == nextLevel
  {
    var f := child / 4096 % 0x100_0000_0000;
    var low := 1 + 512 * nextLevel;
    assert EncodeLink(AmdVi, child, nextLevel) == low + 4096 * f + AMD_IR * 3;
    AmdLowFields(low, f, 3);
    AmdHighFields(low, f, 3);
  }

  // ----- the arithmetic readings, on 64-bit vectors -----

  lemma AddrMaskIsArithmetic(x: bv64)
    ensures x & 0x000f_ffff_ffff_f000 == (x / 4096) % 0x100_0000_0000 * 4096
  {
  }

  lemma OrOfFieldsIsSum(phys: bv64, perms: bv64)
    ensures ((phys & 0x000f_ffff_ffff_f000) | (perms & 3)) == (phys & 0x000f_ffff_ffff_f000) + perms % 4
    ensures (perms & 3 != 0) == (perms % 4 != 0)
  {
  }
}
