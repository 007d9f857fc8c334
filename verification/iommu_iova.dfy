/** Opaque device addresses: the per-domain IOVA allocator and the buffer
    mapping built on it (kernel/src/iommu.rs). */
module IommuIova {
  import opened Prelude
  import opened Words
  import opened FrameAllocator
  import opened IommuPte
  import opened IommuTree
  import opened IommuDomain

  const IOVA_FREELIST: nat := 64
  const READ_WRITE: nat := 3

  /** A bump cursor over `[base, end)` and a small stack of returned addresses. */
  class IovaAllocator {
    var next: nat
    const base: nat
    const end: nat
    const free: array<nat>
    var freeLen: nat

    ghost function Stack(): seq<nat>
      requires freeLen <= free.Length
      reads this, free
    {
      free[..freeLen]
    }

    /** The address the next allocation gives, if it gives one. */
    ghost function NextOut(): nat
      requires freeLen <= free.Length
      reads this, free
    {
      if freeLen > 0 then Stack()[freeLen - 1] else next
    }

    /** Aligned cursor inside the window; the stack holds distinct addresses the
        cursor has already passed. */
    ghost predicate Valid()
      reads this, free
    {
      && free.Length == IOVA_FREELIST && freeLen <= IOVA_FREELIST
      && 0 < base <= next <= end && base % 4096 == 0 && next % 4096 == 0 && end % 4096 == 0
      && (forall i :: 0 <= i < freeLen ==> base <= free[i] < next && free[i] % 4096 == 0)
      && (forall i, j :: 0 <= i < j < freeLen ==> free[i] != free[j])
    }

    /** `base` nonzero and page-aligned, as the constructor asserts. */
    constructor (base: nat, pages: nat)
      requires base != 0 && base % 4096 == 0
      ensures Valid() && fresh(free)
      ensures this.base == base && end == base + pages * 4096 && next == base && freeLen == 0
    {
      this.base, next, end := base, base, base + pages * 4096;
      free := new nat[IOVA_FREELIST];
      freeLen := 0;
    }

    /** Most recently returned address first, then the cursor. */
    method Alloc() returns (r: Option<nat>)
      requires Valid()
      modifies this
      ensures Valid() && free.Length == IOVA_FREELIST
      ensures freeLen < IOVA_FREELIST && freeLen == if old(freeLen) > 0 then old(freeLen) - 1 else 0
      ensures r == if old(freeLen) > 0 then Some(old(Stack())[old(freeLen) - 1])
                   else if old(next) < end then Some(old(next)) else None
      ensures r.Some? ==> base <= r.value < next && next <= end && r.value % 4096 == 0 && r.value !in Stack()
      ensures Stack() == if old(freeLen) > 0 then old(Stack())[..old(freeLen) - 1] else old(Stack())
      ensures next == if old(freeLen) == 0 && old(next) < end then old(next) + 4096 else old(next)
    {
      if freeLen > 0 {
        freeLen := freeLen - 1;
        return Some(free[freeLen]);
      }
      if next < end {
        var iova := next;
        next := next + 4096;
        return Some(iova);
      }
      return None;
    }

    /** Remember a returned address, or drop it when the stack is full. Nothing is
        checked: the allocator stays valid exactly when the address was one it had
        handed out, or the stack was full. */
    method Free(iova: nat)
      requires Valid()
      modifies this, free
      ensures Valid() <==> old(freeLen) == IOVA_FREELIST
                           || (base <= iova < next && iova % 4096 == 0 && iova !in old(Stack()))
      ensures freeLen <= free.Length && next == old(next)
      ensures Stack() == if old(freeLen) < IOVA_FREELIST then old(Stack()) + [iova] else old(Stack())
    {
      if freeLen < free.Length {
        free[freeLen] := iova;
        freeLen := freeLen + 1;
        assert Stack()[..freeLen - 1] == old(Stack());
        if iova in old(Stack()) {
          ghost var i :| 0 <= i < freeLen - 1 && old(Stack())[i] == iova;
          assert free[i] == free[freeLen - 1];
        }
      }
    }
  }

  /** Pages of the window that are mapped are exactly the addresses handed out and
      not returned: below the cursor, and not on the stack. */
  ghost predicate Agree(view: map<nat, Leaf>, io: IovaAllocator)
    requires io.Valid()
    reads io, io.free
  {
    forall page :: page in view ==> io.base <= page * 4096 < io.next && page * 4096 !in io.Stack()
  }

  /** `map_buffer`: never collides with a live mapping, and a failure gives the
      address back to the stack, so nothing is lost. */
  method MapBuffer(fa: FrameAlloc, m: PhysMem, d: Domain, io: IovaAllocator, phys: nat, perms: nat)
    returns (r: Result<nat, DomainError>)
    requires d.Valid(m, fa) && io.Valid() && io.end <= 4096 * PageLimit(d.levels)
    requires Agree(d.View(m), io)
    modifies d, fa, fa.bitmap, m, io, io.free
    ensures d.Valid(m, fa) && io.Valid() && Agree(d.View(m), io) && d.root == old(d.root)
    ensures r == Err(IovaExhausted) <==> old(io.freeLen) == 0 && old(io.next) == io.end
    ensures r.Err? ==> r.error in {IovaExhausted, Misaligned, DomainError.Exhausted}
    ensures r == Err(Misaligned) <==> (old(io.freeLen) > 0 || old(io.next) < io.end) && phys % 4096 != 0
    ensures r == Err(DomainError.Exhausted) <==>
      && (old(io.freeLen) > 0 || old(io.next) < io.end) && phys % 4096 == 0
      && |old(fa.avail)| < Missing(old(d.tables).Keys, PathOf(old(io.NextOut()) / 4096, d.levels))
    ensures r.Err? ==> d.View(m) == old(d.View(m))
    ensures r.Err? && r.error != IovaExhausted ==> old(io.NextOut()) in io.Stack()
    ensures r.Err? && old(io.freeLen) > 0 ==> io.Stack() == old(io.Stack()) && io.next == old(io.next)
    ensures r.Ok? ==> r.value == old(io.NextOut())
    ensures r.Ok? && old(io.freeLen) == 0 ==> io.freeLen == 0 && io.next == old(io.next) + 4096
    ensures r.Ok? ==>
      && r.value % 4096 == 0 && io.base <= r.value < io.end && r.value / 4096 !in old(d.View(m))
      && d.View(m) == match LeafMapped(d.fmt, phys, perms)
                      case Some(leaf) => old(d.View(m))[r.value / 4096 := leaf]
                      case None => old(d.View(m))
    ensures fa.avail + TableFrames(d.tables) == old(fa.avail) + old(TableFrames(d.tables))
    ensures fa.avail <= old(fa.avail)
    ensures OthersUntouched(old(m.tab), m.tab, old(TableFrames(d.tables)), old(fa.avail))
  {
    hide Pages, FreeIn, TableFrames, Shaped, LeavesArePages, Owned, FrameAlloc.Valid, OthersUntouched, AddrField, PageLimit;
    hide Missing, PathOf, PoolOk, IovaAllocator.Valid, Domain.Valid;
    NotYetMapped(d.View(m), io);
    var slot := io.Alloc();
    if slot.None? {
      NothingTouched(m.tab, TableFrames(d.tables), fa.avail);
      return Err(IovaExhausted);
    }
    var iova := slot.value;
    WindowPage(iova, PageLimit(d.levels));
    var mapped := d.Map(fa, m, iova, phys, perms);
    if mapped.Ok? {
      return Ok(iova);
    }
    io.Free(iova);
    assert io.Stack()[|io.Stack()| - 1] == iova;
    return Err(mapped.error);
  }

  lemma NotYetMapped(view: map<nat, Leaf>, io: IovaAllocator)
    requires io.Valid() && Agree(view, io)
    ensures io.freeLen > 0 ==> io.Stack()[io.freeLen - 1] / 4096 !in view
    ensures io.next / 4096 !in view
  {
  }

  lemma WindowPage(iova: nat, limit: nat)
    requires iova % 4096 == 0 && iova < 4096 * limit
    ensures iova / 4096 % limit == iova / 4096 && iova / 4096 * 4096 == iova
  {
    assert iova / 4096 < limit;
  }

  /** `unmap_buffer`: the address goes back only when it was live. An address past
      the domain's width names the page it wraps to and is returned as itself, so
      the allocator survives the call exactly when no such address reaches a stack
      with room. */
  method UnmapBuffer(m: PhysMem, d: Domain, io: IovaAllocator, iova: nat, ghost fa: FrameAlloc)
    returns (r: Result<(), DomainError>)
    requires d.Valid(m, fa) && io.Valid() && Agree(d.View(m), io) && io.end <= 4096 * PageLimit(d.levels)
    modifies m, io, io.free
    ensures d.Valid(m, fa) && io.freeLen <= io.free.Length && io.next == old(io.next)
    ensures r.Ok? <==> iova % 4096 == 0 && d.PageIn(iova) in old(d.View(m))
    ensures r.Err? ==> d.View(m) == old(d.View(m)) && io.Stack() == old(io.Stack())
    ensures r.Ok? ==> d.View(m) == old(d.View(m)) - {d.PageIn(iova)}
    ensures r.Ok? ==> io.Stack() == if old(io.freeLen) < IOVA_FREELIST then old(io.Stack()) + [iova] else old(io.Stack())
    ensures io.Valid() <==> r.Err? || iova < 4096 * PageLimit(d.levels) || old(io.freeLen) == IOVA_FREELIST
    ensures io.Valid() ==> Agree(d.View(m), io)
  {
    hide Pages, FreeIn, TableFrames, Shaped, LeavesArePages, Owned, FrameAlloc.Valid, OthersUntouched, PageLimit;
    if iova % 4096 == 0 && iova < 4096 * PageLimit(d.levels) {
      WindowPage(iova, PageLimit(d.levels));
    }
    r := d.Unmap(m, iova, fa);
    if r.Ok? {
      io.Free(iova);
    }
  }

  /** An address past the width aliases a live page, so returning it would put an
      address outside the window on the stack. */
  lemma WideAddressAliases(base: nat, levels: nat)
    requires base % 4096 == 0 && base < 4096 * PageLimit(levels)
    ensures var wide := base + 4096 * PageLimit(levels);
            && wide / 4096 % PageLimit(levels) == base / 4096 % PageLimit(levels)
            && wide % 4096 == 0 && wide >= 4096 * PageLimit(levels) > base
  {
    var limit := PageLimit(levels);
    assert (base + 4096 * limit) / 4096 == base / 4096 + limit;
    QuotientIsUnique(base / 4096, limit, 0, base / 4096);
    QuotientIsUnique(base / 4096 + limit, limit, 1, base / 4096);
  }

  /** A new domain with one buffer mapped. */
  method OneBuffer(fa: FrameAlloc, m: PhysMem, fmt: PteFmt, base: nat)
    returns (d: Domain, io: IovaAllocator, mapped: Result<nat, DomainError>)
    requires PoolOk(fa) && |fa.avail| >= 3 && 0 < base && base % 4096 == 0 && base + 4096 <= 4096 * PageLimit(3)
    modifies fa, fa.bitmap, m
    ensures mapped == Ok(base) && fresh(d) && fresh(io) && fresh(io.free)
    ensures d.Valid(m, fa) && d.levels == 3 && base / 4096 in d.View(m)
    ensures io.Valid() && Agree(d.View(m), io) && io.end == base + 4096 && io.freeLen == 0
  {
    hide Pages, FreeIn, TableFrames, Shaped, LeavesArePages, Owned, FrameAlloc.Valid, OthersUntouched, PageLimit, AddrField;
    hide Missing, PathOf, Domain.Valid;
    var made := NewDomain(fa, m, 39, fmt);
    d := made.value;
    io := new IovaAllocator(base, 1);
    AtMostTwoMissing({[]}, PathOf(base / 4096, 3));
    mapped := MapBuffer(fa, m, d, io, 0, READ_WRITE);
  }

  /** One map and one unmap on a new domain: the unmap names the mapped page by an
      address past the width, succeeds, and leaves that address, outside the window, on
      top of the stack, where the next allocation takes it from. */
  method WideUnmapBreaksTheStack(fa: FrameAlloc, m: PhysMem, fmt: PteFmt, base: nat)
    returns (io: IovaAllocator, mapped: Result<nat, DomainError>, unmapped: Result<(), DomainError>)
    requires PoolOk(fa) && |fa.avail| >= 3 && 0 < base && base % 4096 == 0 && base + 4096 <= 4096 * PageLimit(3)
    modifies fa, fa.bitmap, m
    ensures mapped == Ok(base) && unmapped == Ok(()) && fresh(io) && io.freeLen <= io.free.Length
    ensures io.end == base + 4096 && io.Stack() == [base + 4096 * PageLimit(3)] && !io.Valid()
  {
    hide Pages, FreeIn, TableFrames, PageLimit, Domain.Valid, Agree;
    var d;
    d, io, mapped := OneBuffer(fa, m, fmt, base);
    WideAddressAliases(base, 3);
    WindowPage(base, PageLimit(3));
    unmapped := UnmapBuffer(m, d, io, base + 4096 * PageLimit(3), fa);
    if unmapped.Ok? { assert unmapped.value == (); }
  }

  lemma AtMostTwoMissing(nodes: set<Path>, path: Path)
    requires |path| == 3
    ensures Missing(nodes, path) <= 2
  {
    assert Missing(nodes, path, 2) == 0;
    assert Missing(nodes, path, 1) <= 1;
  }

  // ----- whole runs -----

  datatype BufferOp = Hand(phys: nat) | GiveBack(iova: nat)

  /** Any run of `map_buffer` and `unmap_buffer`: what is out is exactly what is
      mapped, every address is in the window, and none is also on the stack. */
  method BufferRun(fa: FrameAlloc, m: PhysMem, d: Domain, base: nat, pages: nat, ops: seq<BufferOp>)
    returns (live: set<nat>, io: IovaAllocator)
    requires d.Valid(m, fa) && d.View(m) == map[]
    requires base != 0 && base % 4096 == 0 && base + pages * 4096 <= 4096 * PageLimit(d.levels)
    requires forall k :: 0 <= k < |ops| && ops[k].GiveBack? ==> ops[k].iova < 4096 * PageLimit(d.levels)
    modifies d, fa, fa.bitmap, m
    ensures d.Valid(m, fa) && io.Valid()
    ensures d.View(m).Keys == set a | a in live :: a / 4096
    ensures forall a :: a in live ==> a % 4096 == 0 && base <= a < base + pages * 4096 && a !in io.Stack()
    ensures fa.avail + TableFrames(d.tables) == old(fa.avail) + old(TableFrames(d.tables))
  {
    hide Pages, FreeIn, TableFrames, Shaped, LeavesArePages, Owned, FrameAlloc.Valid, OthersUntouched, PageLimit, AddrField;
    io := new IovaAllocator(base, pages);
    live := {};
    for n := 0 to |ops|
      invariant d.Valid(m, fa) && io.Valid() && fresh(io) && fresh(io.free) && Agree(d.View(m), io)
      invariant io.base == base && io.end == base + pages * 4096
      invariant IsLive(d.View(m), live)
      invariant fa.avail + TableFrames(d.tables) == old(fa.avail) + old(TableFrames(d.tables))
    {
      ghost var was := d.View(m);
      match ops[n] {
        case Hand(phys) =>
          var r := MapBuffer(fa, m, d, io, phys, READ_WRITE);
          if r.Ok? {
            LiveMore(was, d.View(m), live, r.value);
            live := live + {r.value};
          }
        case GiveBack(iova) =>
          if iova % 4096 == 0 {
            WindowPage(iova, PageLimit(d.levels));
          }
          var r := UnmapBuffer(m, d, io, iova, fa);
          if r.Ok? {
            LiveLess(was, d.View(m), live, iova);
            live := live - {iova};
          }
      }
    }
    LiveKeys(d.View(m), live);
  }

  ghost predicate IsLive(view: map<nat, Leaf>, live: set<nat>) {
    && (forall a :: a in live ==> a % 4096 == 0 && a / 4096 in view)
    && (forall page :: page in view ==> page * 4096 in live)
  }

  lemma LiveMore(was: map<nat, Leaf>, now: map<nat, Leaf>, live: set<nat>, a: nat)
    requires IsLive(was, live) && a % 4096 == 0
    requires now.Keys == was.Keys + {a / 4096}
    ensures IsLive(now, live + {a})
  {
    forall page | page in now ensures page * 4096 in live + {a} {
      assert page in was || page == a / 4096;
    }
  }

  lemma LiveLess(was: map<nat, Leaf>, now: map<nat, Leaf>, live: set<nat>, a: nat)
    requires IsLive(was, live) && a % 4096 == 0
    requires now.Keys == was.Keys - {a / 4096}
    ensures IsLive(now, live - {a})
  {
    forall x | x in live - {a} ensures x % 4096 == 0 && x / 4096 in now {
      if x / 4096 == a / 4096 { SamePageSameAddress(x, a); }
    }
    forall page | page in now ensures page * 4096 in live - {a} {
      assert page in was && page != a / 4096;
      PageBack(page);
    }
  }

  lemma SamePageSameAddress(x: nat, a: nat)
    requires x % 4096 == 0 && a % 4096 == 0 && x / 4096 == a / 4096
    ensures x == a
  {
  }

  lemma PageBack(page: nat)
    ensures page * 4096 / 4096 == page
  {
  }

  lemma LiveKeys(view: map<nat, Leaf>, live: set<nat>)
    requires IsLive(view, live)
    ensures view.Keys == set a | a in live :: a / 4096
    ensures forall a :: a in live ==> a / 4096 in view && a / 4096 * 4096 == a
  {
    forall page | page in view ensures exists a :: a in live && a / 4096 == page {
      assert page * 4096 in live && page * 4096 / 4096 == page;
    }
  }
}
