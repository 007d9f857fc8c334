/** The remapping unit as the block and bind paths drive it: the shared identity
    domain, at most one directly-bound device with its own domain, and the
    per-device context entries that point at them (kernel/src/iommu.rs). */
module IommuBinding {
  import opened Prelude
  import opened Words
  import opened FrameAllocator
  import opened IommuPte
  import opened IommuTree
  import opened IommuDomain
  import opened IommuRuns
  import opened IommuIova

  const BLOCK_DID: nat := 1
  const BOUND_DID: nat := 2
  const BOUND_IOVA_BASE: nat := 0x4000_0000
  const BOUND_IOVA_PAGES: nat := 256
  const AMD_DEVTAB_ENTRIES: nat := 128

  /** Why a bind call was refused. */
  datatype BindError = WrongFrameCount | AlreadyBound | NoBoundDevice | BadDomain(why: DomainError)

  /** Where a device sits on the PCI buses. */
  datatype Location = Location(bus: nat, slot: nat, func: nat)

  /** The two words of a context entry (VT-d) or device-table entry (AMD-Vi). */
  type Entry = (nat, nat)

  /** `(dev << 3) | func`, masked to eight bits. */
  function DevFn(loc: Location): (i: nat)
    ensures i < 256
  {
    loc.slot % 32 * 8 + loc.func % 8
  }

  /** Does the unit have an entry for this location at all? AMD-Vi's single-frame
      table stops at 128 and silently skips the rest. */
  predicate Covered(fmt: PteFmt, loc: Location) {
    fmt.Vtd? || DevFn(loc) < AMD_DEVTAB_ENTRIES
  }

  function EntryFor(fmt: PteFmt, root: nat, levels: nat, did: nat): Entry {
    match fmt
    case Vtd => (AddrField(root) + 1, (if levels < 2 then 0 else (levels - 2) % 8) + did * 256)
    case AmdVi => (3 + levels % 8 * 512 + AddrField(root) + AMD_IR + AMD_IW, did)
  }

  /** Present: bit 0 in both formats. */
  predicate EntryPresent(e: Entry) { e.0 % 2 == 1 }

  function EntryRoot(e: Entry): nat { AddrField(e.0) }

  function EntryDid(fmt: PteFmt, e: Entry): nat {
    match fmt
    case Vtd => e.1 / 256
    case AmdVi => e.1
  }

  /** The walk depth the hardware will use for this device. */
  function EntryLevels(fmt: PteFmt, e: Entry): nat {
    match fmt
    case Vtd => e.1 % 8 + 2
    case AmdVi => e.0 / 512 % 8
  }

  /** Does the entry let its device read and write through the tables it names? VT-d: the
      second-level translation type; AMD-Vi: translation valid, and both permissions. */
  predicate EntryGrants(fmt: PteFmt, e: Entry) {
    match fmt
    case Vtd => e.0 / 4 % 4 == 0
    case AmdVi => e.0 / 2 % 2 == 1 && e.0 / AMD_IR % 2 == 1 && e.0 / AMD_IW % 2 == 1
  }

  lemma DidFields(aw: nat, did: nat)
    requires aw < 8
    ensures (aw + did * 256) / 256 == did && (aw + did * 256) % 8 == aw
  {
    QuotientIsUnique(aw + did * 256, 256, did, aw);
    QuotientIsUnique(aw + did * 256, 8, did * 32, aw);
  }

  lemma EntryRoundTrip(fmt: PteFmt, root: nat, levels: nat, did: nat)
    requires root % 4096 == 0 && root < ADDR_LIMIT && 3 <= levels <= 5 && did < 65536
    ensures EntryPresent(EntryFor(fmt, root, levels, did))
    ensures EntryRoot(EntryFor(fmt, root, levels, did)) == root
    ensures EntryDid(fmt, EntryFor(fmt, root, levels, did)) == did
    ensures EntryLevels(fmt, EntryFor(fmt, root, levels, did)) == levels
    ensures EntryGrants(fmt, EntryFor(fmt, root, levels, did))
  {
    hide EntryGrants;
    var f := root / 4096 % 0x100_0000_0000;
    WrittenGrants(fmt, root, levels, did);
    match fmt {
      case Vtd =>
        VtdFields(1, f);
        DidFields(levels - 2, did);
      case AmdVi =>
        assert EntryFor(fmt, root, levels, did).0 == 3 + levels * 512 + 4096 * f + AMD_IR * 3;
        AmdLowFields(3 + levels * 512, f, 3);
    }
  }

  lemma WrittenGrants(fmt: PteFmt, root: nat, levels: nat, did: nat)
    requires levels < 7
    ensures EntryGrants(fmt, EntryFor(fmt, root, levels, did))
  {
    hide AddrField;
    var e := EntryFor(fmt, root, levels, did).0;
    var f := AddrField(root) / 4096;
    assert AddrField(root) == 4096 * f;
    match fmt {
      case Vtd =>
        QuotientIsUnique(e, 4, 1024 * f, 1);
        QuotientIsUnique(1024 * f, 4, 256 * f, 0);
      case AmdVi =>
        QuotientIsUnique(e, 2, 1 + levels * 256 + 2048 * f + AMD_IR / 2 * 3, 1);
        QuotientIsUnique(e, AMD_IR, 3, 3 + levels * 512 + 4096 * f);
        QuotientIsUnique(e, AMD_IW, 1, 3 + levels * 512 + 4096 * f + AMD_IR);
    }
  }

  lemma WrittenIsPresent(fmt: PteFmt, root: nat, levels: nat, did: nat)
    ensures EntryPresent(EntryFor(fmt, root, levels, did))
  {
  }

  /** `phys & !0xfff` names the same page and the same frame field. */
  lemma PageBase(phys: nat)
    ensures var page := phys - phys % 4096;
            page % 4096 == 0 && page / 4096 == phys / 4096 && AddrField(page) == AddrField(phys)
  {
  }

  // ----- which entry the hardware reads -----

  /** The requester id a device puts on its transactions: bus, device and function. */
  type Requester = id: nat | id < 65536

  function BusOf(id: Requester): nat { id / 256 }
  function DeviceOf(id: Requester): nat { id / 8 % 32 }
  function FunctionOf(id: Requester): nat { id % 8 }

  predicate Own(id: Requester, loc: Location) {
    BusOf(id) == loc.bus && DeviceOf(id) == loc.slot && FunctionOf(id) == loc.func
  }

  /** The present entry a transaction with this id is translated by. VT-d selects a
      context table by bus, of which the unit has one, for bus 0, and in it an entry by
      the low eight bits; AMD-Vi selects by the whole id in a table of 128. */
  function Selected(fmt: PteFmt, ctx: seq<Entry>, id: Requester): Option<Entry>
    requires |ctx| == 256
  {
    var there := match fmt case Vtd => BusOf(id) == 0 case AmdVi => id < AMD_DEVTAB_ENTRIES;
    if there && EntryPresent(ctx[id % 256]) then Some(ctx[id % 256]) else None
  }

  /** What the hardware makes of a device address in a transaction with this id. */
  function HwTranslate(fmt: PteFmt, ctx: seq<Entry>, mem: Mem, id: Requester, iova: nat): Option<Leaf>
    requires |ctx| == 256
  {
    match Selected(fmt, ctx, id)
    case None => None
    case Some(e) =>
      if EntryLevels(fmt, e) == 0 || !EntryGrants(fmt, e) then None
      else HwWalk(mem, fmt, EntryRoot(e), EntryLevels(fmt, e), iova)
  }

  /** The ids the unit's tables mean by a location: of the device with that number on
      bus 0, whatever the location's bus. */
  predicate Meant(fmt: PteFmt, id: Requester, loc: Location) {
    && BusOf(id) == 0 && DeviceOf(id) == loc.slot % 32 && FunctionOf(id) == loc.func % 8
    && (fmt.Vtd? || DeviceOf(id) < 16)
  }

  /** Writing a location's entry changes what is selected for the ids meant by it, and
      for no other. */
  lemma EntryIsSelected(fmt: PteFmt, ctx: seq<Entry>, loc: Location, e: Entry)
    requires |ctx| == 256
    ensures forall id: Requester ::
      Selected(fmt, if Covered(fmt, loc) then ctx[DevFn(loc) := e] else ctx, id)
      == if !Meant(fmt, id, loc) then Selected(fmt, ctx, id) else if EntryPresent(e) then Some(e) else None
  {
    forall id: Requester
      ensures Selected(fmt, if Covered(fmt, loc) then ctx[DevFn(loc) := e] else ctx, id)
        == if !Meant(fmt, id, loc) then Selected(fmt, ctx, id) else if EntryPresent(e) then Some(e) else None
    {
      if id < 256 {
        assert id == id / 8 * 8 + id % 8 && id / 8 < 32;
        assert loc.slot % 32 < 16 <==> loc.slot % 32 * 8 + loc.func % 8 < 128;
      }
    }
  }

  /** A device's own id is meant by its location if and only if it is on bus 0 and, for
      AMD-Vi, among the first sixteen; otherwise nothing is ever selected for it. */
  lemma OwnIdIsMeant(fmt: PteFmt, ctx: seq<Entry>, id: Requester, loc: Location)
    requires |ctx| == 256 && Own(id, loc)
    ensures Meant(fmt, id, loc) <==> loc.bus == 0 && (fmt.Vtd? || loc.slot < 16)
    ensures !Meant(fmt, id, loc) ==> Selected(fmt, ctx, id) == None
  {
    assert id == id / 8 * 8 + id % 8 && id / 256 == id / 8 / 32;
  }

  /** On any other bus it is the device with the same number on bus 0 that is meant. */
  lemma OtherBusMeansNamesake(fmt: PteFmt, loc: Location) returns (id: Requester)
    requires loc.slot < 32 && loc.func < 8 && (fmt.Vtd? || loc.slot < 16)
    ensures Meant(fmt, id, loc) && Own(id, loc.(bus := 0))
  {
    id := loc.slot * 8 + loc.func;
  }

  /** The map `bind_prepare` builds: the fixed frames, in order, from the start of
      the window. */
  function FixedView(fixed: seq<nat>): map<nat, Leaf> {
    if fixed == [] then map[]
    else
      var n := |fixed| - 1;
      FixedView(fixed[..n])[BOUND_IOVA_BASE / 4096 + n := Leaf(AddrField(fixed[n]), true, true)]
  }

  lemma RootFits(d: Domain, m: PhysMem, fa: FrameAlloc)
    requires d.Valid(m, fa)
    ensures d.root % 4096 == 0 && 0 < d.root < ADDR_LIMIT
    ensures d.root / FRAME_SIZE in TableFrames(d.tables)
  {
    assert TableFrame(m.tab, d.tables[[]]);
    InTableFrames(d.tables, []);
  }

  lemma DroppedStaysApart(dropped: set<nat>, wasAvail: set<nat>, was: set<nat>, avail: set<nat>, now: set<nat>)
    requires dropped !! wasAvail && dropped !! was && avail + now == wasAvail + was
    ensures dropped !! avail && dropped !! now
  {
    assert forall f :: f in avail || f in now ==> f in avail + now;
  }

  /** Mapping a page of a plain map to itself. */
  lemma IdentityTurn(fmt: PteFmt, levels: Depth, was: Held, free: nat, phys: nat)
    ensures var base := phys - phys % 4096;
      var (now, _, r) := Turn(fmt, levels, was, free, DoMap(base, base, READ_WRITE));
      var page := phys / 4096 % PageLimit(levels);
      && (r.Err? ==> r.error in {AlreadyMapped, DomainError.Exhausted} && now.view == was.view)
      && ((r.Ok? || r == Err(AlreadyMapped)) ==> now.view == WithIdentity(was.view, page, phys))
      && (r == Err(AlreadyMapped) ==> page in was.view) && (r.Ok? ==> page !in was.view)
  {
    hide PageLimit, Affords, Built, AddrField;
    PageBase(phys);
  }

  /** `map_buffer` on one domain while another is live. */
  method MapBufferBeside(fa: FrameAlloc, m: PhysMem, d: Domain, io: IovaAllocator, phys: nat, other: Domain)
    returns (r: Result<nat, DomainError>)
    requires Apart(other, d, m, fa) && io.Valid() && io.end <= 4096 * PageLimit(d.levels)
    requires Agree(d.View(m), io) && phys % 4096 == 0
    modifies d, fa, fa.bitmap, m, io, io.free
    ensures Apart(other, d, m, fa) && io.Valid() && Agree(d.View(m), io)
    ensures other.View(m) == old(other.View(m)) && d.root == old(d.root)
    ensures fa.avail + TableFrames(d.tables) == old(fa.avail) + old(TableFrames(d.tables))
    ensures r.Err? ==> d.View(m) == old(d.View(m))
    ensures r.Ok? ==>
      && r.value % 4096 == 0 && io.base <= r.value < io.end && r.value / 4096 !in old(d.View(m))
      && d.View(m) == old(d.View(m))[r.value / 4096 := Leaf(AddrField(phys), true, true)]
    ensures r.Ok? && old(io.freeLen) == 0 ==>
      r.value == old(io.next) && io.freeLen == 0 && io.next == old(io.next) + 4096
  {
    hide Pages, PageLimit, FreeIn, TableFrames, Shaped, LeavesArePages, FrameAlloc.Valid, OthersUntouched;
    hide Agree, IovaAllocator.Valid, AddrField, PoolOk;
    OwnedIsDisjoint(other.tables, fa);
    assert forall p :: p in other.tables ==> other.tables[p] / FRAME_SIZE < fa.frames && other.tables[p] / FRAME_SIZE !in fa.avail;
    r := MapBuffer(fa, m, d, io, phys, READ_WRITE);
    BystanderKept(old(m.tab), m.tab, other.S(), old(TableFrames(d.tables)), old(fa.avail));
    StillOwned(other.tables, old(fa.avail), fa);
    StillApart(old(TableFrames(d.tables)), TableFrames(d.tables), old(fa.avail), fa.avail, TableFrames(other.tables));
  }

  /** The mapping loop of `bind_prepare`: the fixed frames land at consecutive
      window addresses, whatever the frames are. */
  method MapFixed(fa: FrameAlloc, m: PhysMem, d: Domain, io: IovaAllocator, fixed: seq<nat>, other: Domain)
    returns (ok: bool, iovas: seq<nat>)
    requires Apart(other, d, m, fa) && io.Valid() && d.View(m) == map[]
    requires io.base == io.next == BOUND_IOVA_BASE && io.freeLen == 0 && io.end <= 4096 * PageLimit(d.levels)
    modifies d, fa, fa.bitmap, m, io, io.free
    ensures Apart(other, d, m, fa) && io.Valid() && Agree(d.View(m), io)
    ensures other.View(m) == old(other.View(m)) && d.root == old(d.root)
    ensures fa.avail + TableFrames(d.tables) == old(fa.avail) + old(TableFrames(d.tables))
    ensures ok ==> iovas == seq(|fixed|, k => BOUND_IOVA_BASE + k * 4096) && d.View(m) == FixedView(fixed)
  {
    hide Pages, PageLimit, FreeIn, TableFrames, Apart, IovaAllocator.Valid, AddrField, FixedView;
    iovas := [];
    EmptyAgrees(d.View(m), io, fixed);
    for n := 0 to |fixed|
      invariant Apart(other, d, m, fa) && io.Valid() && Agree(d.View(m), io)
      invariant other.View(m) == old(other.View(m)) && d.root == old(d.root)
      invariant fa.avail + TableFrames(d.tables) == old(fa.avail) + old(TableFrames(d.tables))
      invariant io.freeLen == 0 && io.next == BOUND_IOVA_BASE + n * 4096
      invariant iovas == seq(n, k => BOUND_IOVA_BASE + k * 4096)
      invariant d.View(m) == FixedView(fixed[..n])
    {
      PageBase(fixed[n]);
      var one := MapBufferBeside(fa, m, d, io, fixed[n] - fixed[n] % 4096, other);
      if one.Err? {
        return false, iovas;
      }
      FixedViewMore(fixed, n);
      iovas := iovas + [one.value];
    }
    assert fixed[..|fixed|] == fixed;
    return true, iovas;
  }

  lemma EmptyAgrees(view: map<nat, Leaf>, io: IovaAllocator, fixed: seq<nat>)
    requires view == map[] && io.Valid()
    ensures Agree(view, io) && FixedView(fixed[..0]) == map[]
  {
  }

  lemma FixedViewMore(fixed: seq<nat>, n: nat)
    requires n < |fixed|
    ensures FixedView(fixed[..n + 1])
         == FixedView(fixed[..n])[(BOUND_IOVA_BASE + n * 4096) / 4096 := Leaf(AddrField(fixed[n]), true, true)]
  {
    assert fixed[..n + 1][..n] == fixed[..n];
    assert (BOUND_IOVA_BASE + n * 4096) / 4096 == BOUND_IOVA_BASE / 4096 + n;
  }

  /** Even the narrowest domain holds the window. */
  lemma WindowFits(levels: Depth)
    ensures BOUND_IOVA_BASE + BOUND_IOVA_PAGES * 4096 <= 4096 * PageLimit(levels)
  {
    assert PageLimit(3) == 512 * 512 * 512;
    assert PageLimit(4) == 512 * PageLimit(3);
    assert PageLimit(5) == 512 * PageLimit(4);
  }

  class BoundDomain {
    const domain: Domain
    const iova: IovaAllocator
    const loc: Location
    constructor (domain: Domain, iova: IovaAllocator, loc: Location)
      ensures this.domain == domain && this.iova == iova && this.loc == loc
    {
      this.domain, this.iova, this.loc := domain, iova, loc;
    }
  }

  /** A domain built from free frames is apart from every live one. */
  lemma NewIsApart(live: Domain, d: Domain, mem: Mem, m: PhysMem, wasAvail: set<nat>, fa: FrameAlloc)
    requires live != d && d.Valid(m, fa)
    requires Shaped(mem, live.S()) && LeavesArePages(mem, live.S())
    requires forall p :: p in live.tables ==> live.tables[p] / FRAME_SIZE < fa.frames && live.tables[p] / FRAME_SIZE !in wasAvail
    requires wasAvail == fa.avail + TableFrames(d.tables)
    requires OthersUntouched(mem, m.tab, {}, wasAvail)
    ensures Apart(live, d, m, fa) && live.View(m) == Pages(mem, live.S())
  {
    hide Pages, Shaped, LeavesArePages, OthersUntouched, FrameAlloc.Valid, FreeIn;
    DisjointFromFree(live.tables, wasAvail, fa.frames);
    BystanderKept(mem, m.tab, live.S(), {}, wasAvail);
    StillOwned(live.tables, wasAvail, fa);
  }

  /** `Domain::new` while another domain is live. */
  method NewBeside(fa: FrameAlloc, m: PhysMem, live: Domain, width: nat, fmt: PteFmt)
    returns (r: Result<Domain, DomainError>)
    requires live.Valid(m, fa) && LevelsFor(width).Ok?
    modifies fa, fa.bitmap, m
    ensures live.Valid(m, fa) && live.View(m) == old(live.View(m))
    ensures r.Err? ==> fa.avail == old(fa.avail)
    ensures r.Ok? ==>
      && fresh(r.value) && Apart(live, r.value, m, fa) && r.value.View(m) == map[]
      && r.value.root != 0 && r.value.fmt == fmt && r.value.levels == LevelsFor(width).value
      && old(fa.avail) == fa.avail + TableFrames(r.value.tables)
  {
    hide Pages, PageLimit, FreeIn, TableFrames, Shaped, LeavesArePages, FrameAlloc.Valid, OthersUntouched;
    assert forall p :: p in live.tables ==>
      live.tables[p] / FRAME_SIZE < fa.frames && live.tables[p] / FRAME_SIZE !in fa.avail;
    r := NewDomain(fa, m, width, fmt);
    if r.Ok? {
      NewIsApart(live, r.value, old(m.tab), m, old(fa.avail), fa);
    }
  }

  lemma ApartKeepsBoth(a: Domain, b: Domain, m: PhysMem, fa: FrameAlloc)
    requires Apart(a, b, m, fa)
    ensures a.Valid(m, fa) && b.Valid(m, fa) && TableFrames(a.tables) !! TableFrames(b.tables)
  {
  }

  lemma BuiltFromFree(a: Domain, b: Domain, m: PhysMem, fa: FrameAlloc, wasAvail: set<nat>, dropped: set<nat>)
    requires Apart(a, b, m, fa) && fa.avail + TableFrames(b.tables) <= wasAvail && dropped !! wasAvail
    ensures a.Valid(m, fa) && b.Valid(m, fa) && TableFrames(a.tables) !! TableFrames(b.tables)
    ensures TableFrames(b.tables) !! fa.avail && TableFrames(b.tables) !! dropped
  {
    hide TableFrames, Shaped, LeavesArePages, PoolOk;
    OwnedIsDisjoint(b.tables, fa);
  }

  lemma DisjointFromFree(tables: map<Path, nat>, wasAvail: set<nat>, frames: nat)
    requires forall p :: p in tables ==> tables[p] / FRAME_SIZE < frames && tables[p] / FRAME_SIZE !in wasAvail
    ensures TableFrames(tables) !! wasAvail
  {
  }

  lemma OwnedAfterReturn(tables: map<Path, nat>, wasAvail: set<nat>, freed: set<nat>, fa: FrameAlloc)
    requires forall p :: p in tables ==> tables[p] / FRAME_SIZE < fa.frames && tables[p] / FRAME_SIZE !in wasAvail
    requires TableFrames(tables) !! freed && fa.avail == wasAvail + freed
    ensures Owned(tables, fa)
  {
    forall p | p in tables ensures tables[p] / FRAME_SIZE !in fa.avail { InTableFrames(tables, p); }
  }

  /** A map with one page sent to itself, unless it was mapped already. */
  function WithIdentity(view: map<nat, Leaf>, page: nat, phys: nat): map<nat, Leaf> {
    if page in view then view else view[page := Leaf(AddrField(phys), true, true)]
  }

  function WithIdentities(view: map<nat, Leaf>, levels: nat, fixed: seq<nat>): map<nat, Leaf> {
    if fixed == [] then view
    else
      var n := |fixed| - 1;
      WithIdentity(WithIdentities(view, levels, fixed[..n]), fixed[n] / 4096 % PageLimit(levels), fixed[n])
  }

  /** Every frame named is reachable afterwards, at the address that is its own. */
  lemma {:induction false} IdentitiesAreMapped(view: map<nat, Leaf>, levels: nat, fixed: seq<nat>, k: nat)
    requires k < |fixed|
    ensures fixed[k] / 4096 % PageLimit(levels) in WithIdentities(view, levels, fixed)
    decreases |fixed|
  {
    var n := |fixed| - 1;
    if k < n { IdentitiesAreMapped(view, levels, fixed[..n], k); }
  }

  class BlockIommu {
    const domain: Domain
    const levels: Depth
    const addrWidth: nat
    const fmt: PteFmt
    var prepared: nat
    var enabled: bool
    var bound: BoundDomain?
    /** The device entries, indexed by devfn. */
    var ctx: seq<Entry>
    /** Table frames a failed `bind_prepare` dropped without returning. */
    ghost var leaked: set<nat>

    ghost function BoundFrames(): set<nat>
      reads this, if bound == null then {} else {bound.domain}
    {
      if bound == null then {} else TableFrames(bound.domain.tables)
    }

    /** Everything the unit's two domains may change, beside the allocator. */
    ghost function Parts(): set<object>
      reads this
    {
      {this, domain} + if bound == null then {} else {bound.domain, bound.iova, bound.iova.free}
    }

    ghost predicate BoundOk(m: PhysMem, fa: FrameAlloc)
      requires bound != null
      reads this, Parts(), m, fa, fa.bitmap
    {
      && Apart(domain, bound.domain, m, fa)
      && bound.domain.fmt == fmt && bound.domain.levels == levels && bound.domain.root != 0
      && bound.iova.Valid() && bound.iova.end == BOUND_IOVA_BASE + BOUND_IOVA_PAGES * 4096
      && bound.iova.base == BOUND_IOVA_BASE
      && Agree(bound.domain.View(m), bound.iova)
    }

    /** Every present entry leads to the root of a live domain, with that domain's
        id and depth; only the bound device's entry leads to the bound domain. */
    ghost predicate Wired()
      reads this, Parts()
    {
      && (forall i :: 0 <= i < |ctx| && EntryPresent(ctx[i]) ==> EntryLive(i))
      && (fmt.AmdVi? ==> forall i :: AMD_DEVTAB_ENTRIES <= i < |ctx| ==> !EntryPresent(ctx[i]))
    }

    ghost predicate EntryLive(i: nat)
      requires i < |ctx|
      reads this, Parts()
    {
      && EntryLevels(fmt, ctx[i]) == levels && EntryGrants(fmt, ctx[i])
      && ( || (EntryRoot(ctx[i]) == domain.root && EntryDid(fmt, ctx[i]) == BLOCK_DID)
           || (bound != null && i == DevFn(bound.loc)
               && EntryRoot(ctx[i]) == bound.domain.root && EntryDid(fmt, ctx[i]) == BOUND_DID))
    }

    ghost predicate Valid(m: PhysMem, fa: FrameAlloc)
      reads this, Parts(), m, fa, fa.bitmap
    {
      && domain.Valid(m, fa) && domain.root != 0 && domain.levels == levels && domain.fmt == fmt
      && LevelsFor(addrWidth) == Result.Ok(levels)
      && |ctx| == 256
      && Wired()
      && (bound != null ==> BoundOk(m, fa))
      && DroppedApart(fa.avail)
    }

    /** What was dropped is neither free nor in either tree: it never comes back. */
    ghost predicate DroppedApart(avail: set<nat>)
      reads this, Parts()
    {
      leaked !! avail && leaked !! TableFrames(domain.tables) && leaked !! BoundFrames()
    }

    /** Frames the unit accounts for: both trees, and what was dropped. */
    ghost function Holds(): set<nat>
      reads this, Parts()
    {
      TableFrames(domain.tables) + BoundFrames() + leaked
    }

    /** Transactions with this id are translated by this domain's map. */
    ghost predicate Routes(m: PhysMem, id: Requester, d: Domain)
      requires |ctx| == 256
      reads this, m, d
    {
      forall iova: nat :: HwTranslate(fmt, ctx, m.tab, id, iova) == LookupPage(m.tab, d.S(), d.PageIn(iova))
    }

    /** What an entry written for a live domain's root selects is that domain. */
    lemma WrittenRoutes(m: PhysMem, fa: FrameAlloc, id: Requester, d: Domain, did: nat)
      requires |ctx| == 256 && d.Valid(m, fa) && d.root != 0 && d.fmt == fmt && d.levels == levels && did < 65536
      requires Selected(fmt, ctx, id) == Some(EntryFor(fmt, d.root, levels, did))
      ensures Routes(m, id, d)
    {
      hide HwWalk, LookupPage, PageLimit, EntryRoot, EntryLevels, EntryGrants, EntryFor, Shaped, LeavesArePages, TableFrames, Selected;
      RootFits(d, m, fa);
      EntryRoundTrip(fmt, d.root, levels, did);
      forall iova: nat ensures HwTranslate(fmt, ctx, m.tab, id, iova) == LookupPage(m.tab, d.S(), d.PageIn(iova)) {
        LiveWalk(d, m, fa, iova);
      }
    }

    /** Attaching a live domain routes the ids meant by the location, and no other. */
    lemma AttachedRoutes(was: seq<Entry>, m: PhysMem, fa: FrameAlloc, loc: Location, d: Domain, did: nat)
      requires |was| == |ctx| == 256 && d.Valid(m, fa) && d.root != 0 && d.fmt == fmt && d.levels == levels && did < 65536
      requires forall id: Requester ::
        Selected(fmt, ctx, id) == if Meant(fmt, id, loc) then Some(EntryFor(fmt, d.root, levels, did)) else Selected(fmt, was, id)
      ensures forall id: Requester ::
        if Meant(fmt, id, loc) then Routes(m, id, d) else Selected(fmt, ctx, id) == Selected(fmt, was, id)
    {
      hide Selected, EntryFor, Domain.Valid, Routes, Meant;
      forall id: Requester | Meant(fmt, id, loc) ensures Routes(m, id, d) {
        WrittenRoutes(m, fa, id, d, did);
      }
    }

    /** First `block_prepare_device` call: the shared domain, no device present. */
    constructor (fa: FrameAlloc, m: PhysMem, domain: Domain, addrWidth: nat, fmt: PteFmt)
      requires domain.Valid(m, fa) && domain.root != 0 && domain.fmt == fmt
      requires LevelsFor(addrWidth) == Result.Ok(domain.levels)
      ensures Valid(m, fa) && bound == null && this.domain == domain && !enabled
      ensures Holds() == TableFrames(domain.tables)
    {
      this.domain, this.levels, this.addrWidth, this.fmt := domain, domain.levels, addrWidth, fmt;
      prepared, enabled, bound := 0, false, null;
      ctx := seq(256, _ => (0, 0));
      leaked := {};
    }

    method Attach(loc: Location, root: nat, did: nat)
      modifies this`ctx
      requires |ctx| == 256
      ensures ctx == if Covered(fmt, loc) then old(ctx)[DevFn(loc) := EntryFor(fmt, root, levels, did)] else old(ctx)
      ensures forall id: Requester ::
        Selected(fmt, ctx, id) == if Meant(fmt, id, loc) then Some(EntryFor(fmt, root, levels, did)) else old(Selected(fmt, ctx, id))
    {
      EntryIsSelected(fmt, ctx, loc, EntryFor(fmt, root, levels, did));
      WrittenIsPresent(fmt, root, levels, did);
      if fmt.Vtd? || DevFn(loc) < AMD_DEVTAB_ENTRIES {
        ctx := ctx[DevFn(loc) := EntryFor(fmt, root, levels, did)];
      }
    }

    method Detach(loc: Location)
      modifies this`ctx
      requires |ctx| == 256
      ensures ctx == if Covered(fmt, loc) then old(ctx)[DevFn(loc) := (0, 0)] else old(ctx)
      ensures forall id: Requester ::
        Selected(fmt, ctx, id) == if Meant(fmt, id, loc) then None else old(Selected(fmt, ctx, id))
    {
      EntryIsSelected(fmt, ctx, loc, (0, 0));
      if fmt.Vtd? || DevFn(loc) < AMD_DEVTAB_ENTRIES {
        ctx := ctx[DevFn(loc) := (0, 0)];
      }
    }

    /** Map one page of the shared domain to itself; already mapped is success. */
    method MapShared(fa: FrameAlloc, m: PhysMem, phys: nat) returns (r: Result<bool, DomainError>)
      requires Valid(m, fa)
      modifies domain, fa, fa.bitmap, m
      ensures Valid(m, fa) && domain.root == old(domain.root)
      ensures fa.avail + Holds() == old(fa.avail) + old(Holds())
      ensures bound != null ==> bound.domain.View(m) == old(bound.domain.View(m))
      ensures r.Err? ==> r.error == DomainError.Exhausted && domain.View(m) == old(domain.View(m))
      ensures r.Ok? ==> (r.value <==> domain.PageIn(phys) !in old(domain.View(m)))
      ensures r.Ok? ==> domain.View(m) == WithIdentity(old(domain.View(m)), domain.PageIn(phys), phys)
    {
      hide Pages, PageLimit, FreeIn, TableFrames, Shaped, LeavesArePages, FrameAlloc.Valid, OthersUntouched, Owned;
      hide AddrField, Missing, PathOf, Agree, IovaAllocator.Valid, Turn, WithIdentity, Domain.Valid;
      hide EntryPresent, EntryRoot, EntryDid, EntryLevels, EntryGrants, DevFn;
      var page := phys - phys % 4096;
      PageBase(phys);
      IdentityTurn(fmt, levels, HeldBy(domain, m), |fa.avail|, phys);
      var mapped;
      if bound != null {
        assert Apart(domain, bound.domain, m, fa);
        mapped := ApplyBeside(fa, m, domain, bound.domain, DoMap(page, page, READ_WRITE));
      } else {
        mapped := Apply(fa, m, domain, DoMap(page, page, READ_WRITE));
      }
      DroppedStaysApart(leaked, old(fa.avail), old(TableFrames(domain.tables)), fa.avail, TableFrames(domain.tables));
      return match mapped case Ok(_) => Ok(true) case Err(AlreadyMapped) => Ok(false) case Err(e) => Err(e);
    }

    /** `block_prepare_device` once the unit is up: identity-map the device's fixed
        frames, then point its entry at the shared domain. A frame that cannot be
        mapped leaves the device without an entry. */
    method PrepareDevice(fa: FrameAlloc, m: PhysMem, loc: Location, fixed: seq<nat>) returns (r: Result<(), DomainError>)
      requires Valid(m, fa)
      modifies this`ctx, this`prepared, domain, fa, fa.bitmap, m
      ensures Valid(m, fa)
      ensures fa.avail + Holds() == old(fa.avail) + old(Holds())
      ensures bound != null ==> bound.domain.View(m) == old(bound.domain.View(m))
      ensures r.Err? ==> ctx == old(ctx) && exists n :: 0 <= n < |fixed| && domain.View(m) == WithIdentities(old(domain.View(m)), levels, fixed[..n])
      ensures r.Ok? ==> domain.View(m) == WithIdentities(old(domain.View(m)), levels, fixed)
      ensures r.Ok? ==>
        ctx == if Covered(fmt, loc) then old(ctx)[DevFn(loc) := EntryFor(fmt, domain.root, levels, BLOCK_DID)] else old(ctx)
      ensures r.Ok? ==> forall id: Requester ::
        if Meant(fmt, id, loc) then Routes(m, id, domain) else Selected(fmt, ctx, id) == old(Selected(fmt, ctx, id))
    {
      hide Pages, PageLimit, FreeIn, TableFrames, Apart, FrameAlloc.Valid, Domain.Valid, EntryFor, DevFn;
      hide WithIdentity, Agree, IovaAllocator.Valid, EntryPresent, EntryRoot, EntryDid, EntryLevels, EntryGrants;
      hide Selected, Meant, Routes;
      for n := 0 to |fixed|
        invariant Valid(m, fa) && ctx == old(ctx) && domain.root == old(domain.root)
        invariant fa.avail + Holds() == old(fa.avail) + old(Holds())
        invariant bound != null ==> bound.domain.View(m) == old(bound.domain.View(m))
        invariant domain.View(m) == WithIdentities(old(domain.View(m)), levels, fixed[..n])
      {
        assert fixed[..n + 1][..n] == fixed[..n];
        var one := MapShared(fa, m, fixed[n]);
        if one.Err? {
          return Err(one.error);
        }
      }
      assert fixed[..|fixed|] == fixed;
      RootFits(domain, m, fa);
      EntryRoundTrip(fmt, domain.root, levels, BLOCK_DID);
      Attach(loc, domain.root, BLOCK_DID);
      prepared := prepared + 1;
      AttachedRoutes(old(ctx), m, fa, loc, domain, BLOCK_DID);
      return Ok(());
    }

    /** `block_map_dma` once translation is on: the page is reachable afterwards. */
    method MapDma(fa: FrameAlloc, m: PhysMem, phys: nat) returns (r: Result<(), DomainError>)
      requires Valid(m, fa)
      modifies domain, fa, fa.bitmap, m
      ensures Valid(m, fa)
      ensures fa.avail + Holds() == old(fa.avail) + old(Holds())
      ensures bound != null ==> bound.domain.View(m) == old(bound.domain.View(m))
      ensures !enabled ==> r.Ok? && domain.View(m) == old(domain.View(m))
      ensures enabled && r.Ok? ==> domain.View(m) == WithIdentity(old(domain.View(m)), domain.PageIn(phys), phys)
      ensures r.Err? ==> r.error == DomainError.Exhausted && domain.View(m) == old(domain.View(m))
    {
      hide Pages, PageLimit, FreeIn, TableFrames, Apart, FrameAlloc.Valid, Domain.Valid, Domain.PageIn;
      hide Agree, IovaAllocator.Valid;
      if !enabled {
        return Ok(());
      }
      var one := MapShared(fa, m, phys);
      return match one case Ok(_) => Ok(()) case Err(e) => Err(e);
    }

    /** `block_enable`. */
    method Enable(ghost m: PhysMem, ghost fa: FrameAlloc)
      requires Valid(m, fa)
      modifies this`enabled
      ensures enabled && Valid(m, fa) && Holds() == old(Holds())
    {
      hide Domain.Valid, Apart, Agree, IovaAllocator.Valid, TableFrames, Pages, LevelsFor;
      hide EntryPresent, EntryRoot, EntryDid, EntryLevels, EntryGrants, DevFn;
      enabled := true;
    }

    /** The last step of a bind: route the device into its own domain. */
    method Commit(b: BoundDomain, ghost fa: FrameAlloc, ghost m: PhysMem)
      requires Valid(m, fa) && bound == null && leaked !! TableFrames(b.domain.tables)
      requires Apart(domain, b.domain, m, fa) && b.domain.fmt == fmt && b.domain.levels == levels && b.domain.root != 0
      requires b.iova.Valid() && b.iova.base == BOUND_IOVA_BASE && b.iova.end == BOUND_IOVA_BASE + BOUND_IOVA_PAGES * 4096
      requires Agree(b.domain.View(m), b.iova)
      modifies this`ctx, this`bound
      ensures Valid(m, fa) && bound == b
      ensures Holds() == old(Holds()) + TableFrames(b.domain.tables)
      ensures ctx == if Covered(fmt, b.loc) then old(ctx)[DevFn(b.loc) := EntryFor(fmt, b.domain.root, levels, BOUND_DID)]
                     else old(ctx)
      ensures forall id: Requester ::
        if Meant(fmt, id, b.loc) then Routes(m, id, b.domain) else Selected(fmt, ctx, id) == old(Selected(fmt, ctx, id))
    {
      hide TableFrames, Domain.Valid, Apart, Agree, EntryPresent, EntryRoot, EntryDid, EntryLevels, EntryGrants, EntryFor, DevFn;
      ApartKeepsBoth(domain, b.domain, m, fa);
      RootFits(b.domain, m, fa);
      EntryRoundTrip(fmt, b.domain.root, levels, BOUND_DID);
      Attach(b.loc, b.domain.root, BOUND_DID);
      bound := b;
      AttachedRoutes(old(ctx), m, fa, b.loc, b.domain, BOUND_DID);
    }

    /** A domain whose bind failed is dropped with its frames. */
    ghost method Forfeit(d: Domain, fa: FrameAlloc, m: PhysMem)
      requires Valid(m, fa) && bound == null && leaked !! TableFrames(d.tables)
      requires TableFrames(d.tables) !! TableFrames(domain.tables) && TableFrames(d.tables) !! fa.avail
      modifies this`leaked
      ensures Valid(m, fa) && leaked == old(leaked) + TableFrames(d.tables)
    {
      hide TableFrames, Domain.Valid, EntryPresent, EntryRoot, EntryDid, EntryLevels, EntryGrants, DevFn;
      leaked := leaked + TableFrames(d.tables);
    }

    /** `bind_prepare`: a fresh domain for one device, its four fixed frames at
        opaque addresses, then its entry. The addresses depend on nothing but the
        window. A failure after the domain exists drops the domain's frames. */
    method BindPrepare(fa: FrameAlloc, m: PhysMem, loc: Location, fixed: seq<nat>)
      returns (r: Result<seq<nat>, BindError>)
      requires Valid(m, fa)
      modifies this, fa, fa.bitmap, m
      ensures Valid(m, fa)
      ensures fa.avail + Holds() == old(fa.avail) + old(Holds())
      ensures domain.View(m) == old(domain.View(m)) && domain.root == old(domain.root)
      ensures r == Err(WrongFrameCount) <==> |fixed| != 4
      ensures r == Err(AlreadyBound) <==> |fixed| == 4 && old(bound) != null
      ensures r.Err? ==> bound == old(bound) && ctx == old(ctx)
      ensures r.Err? && bound != null ==> bound.domain.View(m) == old(bound.domain.View(m))
      ensures old(leaked) <= leaked && (!(r.Err? && r.error.BadDomain?) ==> leaked == old(leaked))
      ensures r.Ok? ==> fresh(bound) && fresh(bound.domain) && fresh(bound.iova) && fresh(bound.iova.free)
      ensures r.Ok? ==> bound.loc == loc
      ensures r.Ok? ==>
        ctx == if Covered(fmt, loc) then old(ctx)[DevFn(loc) := EntryFor(fmt, bound.domain.root, levels, BOUND_DID)]
               else old(ctx)
      ensures r.Ok? ==> forall id: Requester ::
        if Meant(fmt, id, loc) then Routes(m, id, bound.domain) else Selected(fmt, ctx, id) == old(Selected(fmt, ctx, id))
      ensures r.Ok? ==> r.value == seq(4, k => BOUND_IOVA_BASE + k * 4096)
      ensures r.Ok? ==> bound.domain.View(m) == FixedView(fixed)
    {
      hide Pages, PageLimit, FreeIn, TableFrames, Domain.Valid, Apart, FrameAlloc.Valid, OthersUntouched, FixedView;
      hide Agree, EntryPresent, EntryRoot, EntryDid, EntryLevels, EntryGrants, EntryFor, DevFn, AddrField, Selected, Meant, Routes;
      if |fixed| != 4 {
        return Err(WrongFrameCount);
      }
      if bound != null {
        return Err(AlreadyBound);
      }
      var made := NewBeside(fa, m, domain, addrWidth, fmt);
      if made.Err? {
        return Err(BadDomain(made.error));
      }
      var d := made.value;
      WindowFits(levels);
      var io := new IovaAllocator(BOUND_IOVA_BASE, BOUND_IOVA_PAGES);
      var ok, iovas := MapFixed(fa, m, d, io, fixed, domain);
      BuiltFromFree(domain, d, m, fa, old(fa.avail), leaked);
      if !ok {
        Forfeit(d, fa, m);
        return Err(BadDomain(DomainError.Exhausted));
      }
      var b := new BoundDomain(d, io, loc);
      Commit(b, fa, m);
      return Ok(iovas);
    }

    /** `bind_map_dma`: one more frame in the bound domain, at a fresh address. */
    method BindMapDma(fa: FrameAlloc, m: PhysMem, phys: nat) returns (r: Result<nat, BindError>)
      requires Valid(m, fa)
      modifies Parts() - {this, domain}, fa, fa.bitmap, m
      ensures Valid(m, fa)
      ensures fa.avail + Holds() == old(fa.avail) + old(Holds())
      ensures domain.View(m) == old(domain.View(m))
      ensures r == Err(NoBoundDevice) <==> bound == null
      ensures r.Err? && bound != null ==> bound.domain.View(m) == old(bound.domain.View(m))
      ensures r.Ok? ==>
        && r.value % 4096 == 0 && BOUND_IOVA_BASE <= r.value < BOUND_IOVA_BASE + BOUND_IOVA_PAGES * 4096
        && r.value / 4096 !in old(bound.domain.View(m))
        && bound.domain.View(m) == old(bound.domain.View(m))[r.value / 4096 := Leaf(AddrField(phys), true, true)]
    {
      hide Pages, PageLimit, FreeIn, TableFrames, Shaped, LeavesArePages, FrameAlloc.Valid, OthersUntouched, Owned;
      hide Agree, IovaAllocator.Valid, EntryPresent, EntryRoot, EntryDid, EntryLevels, EntryGrants, DevFn, AddrField;
      if bound == null {
        return Err(NoBoundDevice);
      }
      WindowFits(levels);
      PageBase(phys);
      var mapped := MapBufferBeside(fa, m, bound.domain, bound.iova, phys - phys % 4096, domain);
      return match mapped case Ok(iova) => Ok(iova) case Err(e) => Err(BadDomain(e));
    }

    /** `bind_teardown`: stop routing the device, then return its domain's table
        frames. Afterwards no present entry leads anywhere but the shared domain. */
    method BindTeardown(fa: FrameAlloc, m: PhysMem)
      requires Valid(m, fa)
      modifies Parts(), fa, fa.bitmap
      ensures Valid(m, fa) && bound == null && leaked == old(leaked)
      ensures fa.avail == old(fa.avail) + old(BoundFrames())
      ensures fa.avail + Holds() == old(fa.avail) + old(Holds())
      ensures domain.View(m) == old(domain.View(m)) && domain.root == old(domain.root)
      ensures forall i :: 0 <= i < |ctx| && EntryPresent(ctx[i]) ==> EntryRoot(ctx[i]) == domain.root
      ensures forall id: Requester ::
        Selected(fmt, ctx, id) == if old(bound) != null && Meant(fmt, id, old(bound).loc) then None else old(Selected(fmt, ctx, id))
    {
      hide Pages, PageLimit, FreeIn, TableFrames, Shaped, LeavesArePages, FrameAlloc.Valid, OthersUntouched;
      hide Agree, IovaAllocator.Valid, EntryRoot, EntryDid, EntryLevels, EntryGrants, DevFn, AddrField;
      if bound == null {
        return;
      }
      var gone := bound;
      assert forall p :: p in domain.tables ==>
        domain.tables[p] / FRAME_SIZE < fa.frames && domain.tables[p] / FRAME_SIZE !in fa.avail;
      bound := null;
      Detach(gone.loc);
      gone.domain.Teardown(fa, m);
      OwnedAfterReturn(domain.tables, old(fa.avail), old(BoundFrames()), fa);
    }
  }

  /** A transaction that is translated at all is translated by a live domain: the root
      its entry names is not a free frame, and what the hardware makes of every address
      is exactly that domain's map; the bound domain's only for the bound device. */
  lemma RoutedThroughLiveDomain(bi: BlockIommu, m: PhysMem, fa: FrameAlloc, id: Requester)
    requires bi.Valid(m, fa) && Selected(bi.fmt, bi.ctx, id).Some?
    ensures var e := Selected(bi.fmt, bi.ctx, id).value;
      && EntryRoot(e) / FRAME_SIZE !in fa.avail
      && if EntryDid(bi.fmt, e) == BLOCK_DID then bi.Routes(m, id, bi.domain)
         else bi.bound != null && Meant(bi.fmt, id, bi.bound.loc) && bi.Routes(m, id, bi.bound.domain)
  {
    hide HwWalk, LookupPage, PageLimit, EntryRoot, EntryDid, EntryLevels, EntryGrants, EntryPresent, Shaped, LeavesArePages, TableFrames;
    assert bi.EntryLive(id % 256);
    RootFits(bi.domain, m, fa);
    OwnedIsDisjoint(bi.domain.tables, fa);
    forall iova: nat { LiveWalk(bi.domain, m, fa, iova); }
    if bi.bound != null {
      RootFits(bi.bound.domain, m, fa);
      OwnedIsDisjoint(bi.bound.domain.tables, fa);
      forall iova: nat { LiveWalk(bi.bound.domain, m, fa, iova); }
      if id % 256 == DevFn(bi.bound.loc) { SelectedIsMeant(bi.fmt, id, bi.bound.loc); }
    }
  }

  lemma SelectedIsMeant(fmt: PteFmt, id: Requester, loc: Location)
    requires id % 256 == DevFn(loc) && if fmt.Vtd? then BusOf(id) == 0 else id < AMD_DEVTAB_ENTRIES
    ensures Meant(fmt, id, loc)
  {
  }

  lemma LiveWalk(d: Domain, m: PhysMem, fa: FrameAlloc, iova: nat)
    requires d.Valid(m, fa)
    ensures HwWalk(m.tab, d.fmt, d.root, d.levels, iova) == LookupPage(m.tab, d.S(), d.PageIn(iova))
  {
    HardwareAgrees(m.tab, d.S(), iova);
  }

  datatype UnitOp =
    | Prepare(loc: Location, frames: seq<nat>)
    | Dma(phys: nat)
    | TurnOn
    | Bind(bindLoc: Location, fixed: seq<nat>)
    | BindDma(bindPhys: nat)
    | Unbind

  /** Any run of the unit: every present entry stays wired to a live domain, and
      no frame is lost except those a refused bind dropped. */
  method UnitRun(fa: FrameAlloc, m: PhysMem, bi: BlockIommu, ops: seq<UnitOp>) returns (dropped: nat)
    requires bi.Valid(m, fa)
    modifies bi.Parts(), fa, fa.bitmap, m
    ensures bi.Valid(m, fa)
    ensures fa.avail + bi.Holds() == old(fa.avail) + old(bi.Holds())
    ensures old(bi.leaked) <= bi.leaked && (dropped == 0 ==> bi.leaked == old(bi.leaked))
    ensures |fa.avail| + |TableFrames(bi.domain.tables)| + |bi.BoundFrames()| + |bi.leaked| == |old(fa.avail)| + |old(bi.Holds())|
  {
    hide Pages, PageLimit, TableFrames, FrameAlloc.Valid, BlockIommu.Valid, BlockIommu.Holds, Domain.Valid;
    dropped := 0;
    EachFrameOnce(bi, m, fa);
    for n := 0 to |ops|
      invariant bi.Valid(m, fa)
      invariant fa.avail + bi.Holds() == old(fa.avail) + old(bi.Holds())
      invariant old(bi.leaked) <= bi.leaked && (dropped == 0 ==> bi.leaked == old(bi.leaked))
      invariant bi.bound == old(bi.bound) || bi.bound == null || OwnParts(bi)
    {
      match ops[n] {
        case Prepare(loc, frames) =>
          var _ := bi.PrepareDevice(fa, m, loc, frames);
        case Dma(phys) =>
          var _ := bi.MapDma(fa, m, phys);
        case TurnOn =>
          bi.Enable(m, fa);
        case Bind(loc, fixed) =>
          var r := bi.BindPrepare(fa, m, loc, fixed);
          if r.Err? && r.error.BadDomain? {
            dropped := dropped + 1;
          }
        case BindDma(phys) =>
          var _ := bi.BindMapDma(fa, m, phys);
        case Unbind =>
          bi.BindTeardown(fa, m);
      }
    }
    EachFrameOnce(bi, m, fa);
  }

  /** Free, in either tree, or dropped: no frame is counted twice. */
  lemma EachFrameOnce(bi: BlockIommu, m: PhysMem, fa: FrameAlloc)
    requires bi.Valid(m, fa)
    ensures |fa.avail + bi.Holds()| == |fa.avail| + |bi.Holds()|
    ensures |bi.Holds()| == |TableFrames(bi.domain.tables)| + |bi.BoundFrames()| + |bi.leaked|
  {
    hide TableFrames, FrameAlloc.Valid, BlockIommu.Wired, Owned, Shaped, LeavesArePages, Agree;
    OwnedIsDisjoint(bi.domain.tables, fa);
    if bi.bound != null { OwnedIsDisjoint(bi.bound.domain.tables, fa); }
    var trees := TableFrames(bi.domain.tables) + bi.BoundFrames();
    assert bi.Holds() == trees + bi.leaked && trees !! bi.leaked && bi.Holds() !! fa.avail;
  }

  twostate predicate OwnParts(bi: BlockIommu)
    reads bi
  {
    bi.bound != null && fresh(bi.bound.domain) && fresh(bi.bound.iova) && fresh(bi.bound.iova.free)
  }
}
