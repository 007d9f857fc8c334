/** What one process has mapped through its capabilities: the mapping records and
    page tables that `frame_map`, `fb_map` and revocation keep in step with the
    capability table (kernel/src/process.rs, kernel/src/syscall.rs). */
module UserMaps {
  import opened Prelude
  import opened Capabilities
  import opened FrameAllocator
  import opened Loader

  const USER_MAP_BASE: nat := 0x1000_0000
  const USER_MAP_END: nat := 0x2000_0000
  const MAX_USER_MAPS: nat := 16
  const MAX_FB_MAPS: nat := 4

  /** One frame mapped at `va`, through the capability in `slot`. */
  datatype FrameRecord = FrameRecord(va: nat, slot: nat)

  /** `pages` framebuffer pages mapped from `va`, through the capability in `slot`. */
  datatype FbRecord = FbRecord(va: nat, pages: nat, slot: nat)

  datatype Access = Access(table: Table, frames: seq<Option<FrameRecord>>, fbs: seq<Option<FbRecord>>, pages: map<nat, Mapping>)

  predicate Window(va: nat) { USER_MAP_BASE <= va < USER_MAP_END }

  /** Writable, never executable. */
  function Shared(phys: nat): Mapping { Mapping(phys, true, false) }

  /** `height * stride * bytes_per_pixel`, rounded up to whole pages. */
  function FbPages(target: CapObject): nat
    requires target.Framebuffer?
  {
    (target.height * target.stride * target.bytesPerPixel + FRAME_SIZE - 1) / FRAME_SIZE
  }

  /** `x` starts one of the `n` pages from `va`. */
  predicate InStretch(x: nat, va: nat, n: nat) {
    va <= x < va + n * FRAME_SIZE && (x - va) % FRAME_SIZE == 0
  }

  function StretchVas(va: nat, n: nat): set<nat> {
    set x | va <= x < va + n * FRAME_SIZE && InStretch(x, va, n)
  }

  /** `n` pages from `va`, onto `n` pages from `base`. */
  function Stretch(va: nat, base: nat, n: nat): map<nat, Mapping> {
    map x | x in StretchVas(va, n) :: Shared(base + (x - va))
  }

  // ----- what the records claim -----

  predicate FrameAt(r: Option<FrameRecord>, slot: nat, x: nat) {
    r == Some(FrameRecord(x, slot))
  }

  predicate FbAt(r: Option<FbRecord>, slot: nat, x: nat) {
    r.Some? && r.value.slot == slot && InStretch(x, r.value.va, r.value.pages)
  }

  /** Page `x` is recorded as mapped through `slot`. */
  predicate Recorded(a: Access, slot: nat, x: nat) {
    || (exists k :: 0 <= k < |a.frames| && FrameAt(a.frames[k], slot, x))
    || exists k :: 0 <= k < |a.fbs| && FbAt(a.fbs[k], slot, x)
  }

  /** The capability allows this physical page to be mapped. */
  predicate Entitles(c: Option<Capability>, phys: nat) {
    && c.Some? && MayMap in c.value.rights
    && match c.value.target
       case Frame(addr) => phys == addr
       case Framebuffer(base, _, _, _, _, _) => base <= phys < base + FbPages(c.value.target) * FRAME_SIZE
       case _ => false
  }

  predicate FrameOk(a: Access, r: FrameRecord) {
    && r.slot < MAX_CAPS && a.table.caps[r.slot].Some?
    && var cap := a.table.caps[r.slot].value;
       && MayMap in cap.rights && cap.target.Frame?
       && Window(r.va) && r.va in a.pages && a.pages[r.va] == Shared(cap.target.addr)
  }

  ghost predicate FbOk(a: Access, r: FbRecord) {
    && r.slot < MAX_CAPS && a.table.caps[r.slot].Some?
    && var cap := a.table.caps[r.slot].value;
       && MayMap in cap.rights && cap.target.Framebuffer? && r.pages == FbPages(cap.target)
       && forall x: nat :: InStretch(x, r.va, r.pages) ==> Window(x) && x in a.pages && a.pages[x] == Shared(cap.target.base + (x - r.va))
  }

  /** Every record is backed by a capability that is still held and a page that is still
      mapped, and no page is recorded twice. */
  ghost predicate Coherent(a: Access) {
    && |a.frames| == MAX_USER_MAPS && |a.fbs| == MAX_FB_MAPS
    && (forall k :: 0 <= k < MAX_USER_MAPS && a.frames[k].Some? ==> FrameOk(a, a.frames[k].value))
    && (forall k :: 0 <= k < MAX_FB_MAPS && a.fbs[k].Some? ==> FbOk(a, a.fbs[k].value))
    && forall x: nat, s: nat, t: nat :: Recorded(a, s, x) && Recorded(a, t, x) ==> s == t
  }

  ghost predicate InRecord(a: Access, x: nat) {
    exists s: nat :: Recorded(a, s, x)
  }

  /** Mapped in the window with no record: what `bind_device` leaves, and revocation
      does not see. */
  ghost predicate Loose(a: Access, x: nat) {
    x in a.pages && Window(x) && !InRecord(a, x)
  }

  ghost predicate SameLoose(a: Access, b: Access) {
    forall x: nat :: (Loose(a, x) <==> Loose(b, x)) && (Loose(a, x) ==> x in b.pages && b.pages[x] == a.pages[x])
  }

  lemma RecordedIsMapped(a: Access, slot: nat, x: nat)
    requires Coherent(a) && Recorded(a, slot, x)
    ensures Window(x) && x in a.pages && slot < MAX_CAPS && Entitles(a.table.caps[slot], a.pages[x].phys)
    ensures a.pages[x].writable && !a.pages[x].executable
  {
    if k :| 0 <= k < |a.frames| && FrameAt(a.frames[k], slot, x) {
      assert FrameOk(a, a.frames[k].value);
    } else {
      var k :| 0 <= k < |a.fbs| && FbAt(a.fbs[k], slot, x);
      assert FbOk(a, a.fbs[k].value);
    }
  }

  /** No recorded access without authority: whatever a process can reach in its mapping
      window, but for loose pages, it can reach through one slot, and the capability
      there entitles it to. */
  lemma AccessNeedsAuthority(a: Access, x: nat) returns (slot: nat)
    requires Coherent(a) && Window(x) && x in a.pages
    ensures Loose(a, x) || (slot < MAX_CAPS && Recorded(a, slot, x) && Entitles(a.table.caps[slot], a.pages[x].phys) && !a.pages[x].executable)
  {
    slot := 0;
    if !Loose(a, x) {
      slot :| Recorded(a, slot, x);
      RecordedIsMapped(a, slot, x);
    }
  }

  // ----- the steps -----

  function Vacant<T>(s: seq<Option<T>>, from: nat := 0): (r: Option<nat>)
    requires from <= |s|
    ensures r.Some? ==> from <= r.value < |s| && s[r.value].None?
    ensures forall i :: from <= i < (if r.Some? then r.value else |s|) ==> s[i].Some?
    decreases |s| - from
  {
    if from == |s| then None else if s[from].None? then Some(from) else Vacant(s, from + 1)
  }

  /** `frame_map`; `room` says whether the mapper could make the tables it needs. */
  function FrameMapStep(a: Access, slot: nat, va: nat, room: bool): (Access, bool) {
    if va % FRAME_SIZE != 0 || !Window(va) then (a, false)
    else
      match Granted(a.table, slot, MayMap)
      case Some(Frame(addr)) =>
        (match Vacant(a.frames)
         case Some(k) =>
           if va in a.pages || !room then (a, false)
           else (a.(frames := a.frames[k := Some(FrameRecord(va, slot))], pages := a.pages[va := Shared(addr)]), true)
         case None => (a, false))
      case _ => (a, false)
  }

  /** `fb_map`; `infoOk` says whether the geometry can be written back. */
  ghost function FbMapStep(a: Access, slot: nat, va: nat, infoOk: bool, room: bool): (Access, bool) {
    match Granted(a.table, slot, MayMap)
    case Some(Framebuffer(base, w, h, stride, bpp, fmt)) =>
      (match Vacant(a.fbs)
       case Some(k) =>
         var n := FbPages(Framebuffer(base, w, h, stride, bpp, fmt));
         if n == 0 || va % FRAME_SIZE != 0 || va < USER_MAP_BASE || va + n * FRAME_SIZE > USER_MAP_END || !infoOk || !room
            || !(StretchVas(va, n) !! a.pages.Keys)
         then (a, false)
         else (a.(fbs := a.fbs[k := Some(FbRecord(va, n, slot))], pages := a.pages + Stretch(va, base, n)), true)
       case None => (a, false))
    case _ => (a, false)
  }

  function FrameVas(frames: seq<Option<FrameRecord>>, slot: nat): set<nat> {
    set k | 0 <= k < |frames| && frames[k].Some? && frames[k].value.slot == slot :: frames[k].value.va
  }

  function FramesOff(frames: seq<Option<FrameRecord>>, slot: nat): (r: seq<Option<FrameRecord>>)
    ensures |r| == |frames|
  {
    seq(|frames|, k requires 0 <= k < |frames| => if frames[k].Some? && frames[k].value.slot == slot then None else frames[k])
  }

  ghost function FbVas(fbs: seq<Option<FbRecord>>, slot: nat): set<nat> {
    set k, x | 0 <= k < |fbs| && FbAt(fbs[k], slot, x) && x in StretchVas(fbs[k].value.va, fbs[k].value.pages) :: x
  }

  function FbsOff(fbs: seq<Option<FbRecord>>, slot: nat): (r: seq<Option<FbRecord>>)
    ensures |r| == |fbs|
  {
    seq(|fbs|, k requires 0 <= k < |fbs| => if fbs[k].Some? && fbs[k].value.slot == slot then None else fbs[k])
  }

  /** The unmapping half of `revoke_and_unmap`: by the kind that left the slot. */
  ghost function Cut(a: Access, slot: nat, target: CapObject): Access {
    match target
    case Frame(_) => a.(frames := FramesOff(a.frames, slot), pages := a.pages - FrameVas(a.frames, slot))
    case Framebuffer(_, _, _, _, _, _) => a.(fbs := FbsOff(a.fbs, slot), pages := a.pages - FbVas(a.fbs, slot))
    case _ => a
  }

  ghost function RevokeStep(a: Access, slot: nat): (Access, Option<Capability>) {
    match Held(a.table, slot)
    case None => (a, None)
    case Some(cap) => (Cut(a.(table := Without(a.table, slot)), slot, cap.target), Some(cap))
  }

  // ----- what every step keeps -----

  ghost function PagesThrough(a: Access, slot: nat): set<nat> {
    set x | x in a.pages && Recorded(a, slot, x)
  }

  /** The records of a slot name its own kind, so cutting by kind cuts them all. */
  lemma CutRecorded(a: Access, slot: nat, s: nat, x: nat)
    requires Coherent(a) && slot < MAX_CAPS && a.table.caps[slot].Some?
    ensures Recorded(Cut(a, slot, a.table.caps[slot].value.target), s, x) <==> s != slot && Recorded(a, s, x)
  {
    var b := Cut(a, slot, a.table.caps[slot].value.target);
    if Recorded(b, s, x) {
      if k :| 0 <= k < |b.frames| && FrameAt(b.frames[k], s, x) {
        assert FrameAt(a.frames[k], s, x) && FrameOk(a, a.frames[k].value);
      } else {
        var k :| 0 <= k < |b.fbs| && FbAt(b.fbs[k], s, x);
        assert FbAt(a.fbs[k], s, x) && FbOk(a, a.fbs[k].value);
      }
    }
    if s != slot && Recorded(a, s, x) {
      if k :| 0 <= k < |a.frames| && FrameAt(a.frames[k], s, x) {
        assert FrameAt(b.frames[k], s, x);
      } else {
        var k :| 0 <= k < |a.fbs| && FbAt(a.fbs[k], s, x);
        assert FbAt(b.fbs[k], s, x);
      }
    }
  }

  lemma CutPages(a: Access, slot: nat)
    requires Coherent(a) && slot < MAX_CAPS && a.table.caps[slot].Some?
    ensures Cut(a, slot, a.table.caps[slot].value.target).pages == a.pages - PagesThrough(a, slot)
  {
    var b := Cut(a, slot, a.table.caps[slot].value.target);
    forall x ensures x in b.pages <==> x in a.pages && x !in PagesThrough(a, slot) {
      if x in a.pages && Recorded(a, slot, x) {
        RecordedIsMapped(a, slot, x);
        if k :| 0 <= k < |a.frames| && FrameAt(a.frames[k], slot, x) {
          assert FrameOk(a, a.frames[k].value);
        } else {
          var k :| 0 <= k < |a.fbs| && FbAt(a.fbs[k], slot, x);
          assert FbOk(a, a.fbs[k].value);
        }
      }
      if x in a.pages && x !in b.pages { CutTakesRecorded(a, slot, x); }
    }
  }

  lemma CutTakesRecorded(a: Access, slot: nat, x: nat)
    requires x in FrameVas(a.frames, slot) || x in FbVas(a.fbs, slot)
    ensures Recorded(a, slot, x)
  {
    if x in FrameVas(a.frames, slot) {
      var k :| 0 <= k < |a.frames| && a.frames[k].Some? && a.frames[k].value.slot == slot && a.frames[k].value.va == x;
      assert FrameAt(a.frames[k], slot, x);
    }
  }

  /** Whatever else `table` differs in, once the slot is empty exactly the pages
      recorded under it are gone, and nothing is reachable through it any more. */
  lemma CutIsExact(a: Access, slot: nat, table: Table)
    requires Coherent(a) && slot < MAX_CAPS && a.table.caps[slot].Some?
    requires table.caps == a.table.caps[slot := None]
    ensures var b := Cut(a.(table := table), slot, a.table.caps[slot].value.target);
            && Coherent(b) && b.table == table && b.pages == a.pages - PagesThrough(a, slot)
            && SameLoose(a, b) && forall x: nat :: !Recorded(b, slot, x)
  {
    hide Coherent, Recorded;
    var target := a.table.caps[slot].value.target;
    var c := Cut(a, slot, target);
    var b := Cut(a.(table := table), slot, target);
    assert b == c.(table := table);
    CutPages(a, slot);
    forall s: nat, x: nat ensures Recorded(b, s, x) <==> s != slot && Recorded(a, s, x) {
      CutRecorded(a, slot, s, x);
      SameRecords(b, c, s, x);
    }
    CutKeepsOthers(a, slot);
    SmallerIsCoherent(a, b, slot);
    forall x: nat ensures InRecord(b, x) <==> InRecord(a, x) && !Recorded(a, slot, x) { OneSlotEach(a, x); }
  }

  lemma OneSlotEach(a: Access, x: nat)
    requires Coherent(a)
    ensures forall s: nat, t: nat :: Recorded(a, s, x) && Recorded(a, t, x) ==> s == t
  {
  }

  lemma CutKeepsOthers(a: Access, slot: nat)
    requires Coherent(a) && slot < MAX_CAPS && a.table.caps[slot].Some?
    ensures var b := Cut(a, slot, a.table.caps[slot].value.target);
      && |b.frames| == MAX_USER_MAPS && |b.fbs| == MAX_FB_MAPS
      && (forall k :: 0 <= k < MAX_USER_MAPS && b.frames[k].Some? ==> b.frames[k] == a.frames[k] && b.frames[k].value.slot != slot)
      && (forall k :: 0 <= k < MAX_FB_MAPS && b.fbs[k].Some? ==> b.fbs[k] == a.fbs[k] && b.fbs[k].value.slot != slot)
  {
    assert forall k :: 0 <= k < MAX_USER_MAPS && a.frames[k].Some? ==> FrameOk(a, a.frames[k].value);
    assert forall k :: 0 <= k < MAX_FB_MAPS && a.fbs[k].Some? ==> FbOk(a, a.fbs[k].value);
  }

  lemma SameRecords(a: Access, b: Access, s: nat, x: nat)
    requires a.frames == b.frames && a.fbs == b.fbs
    ensures Recorded(a, s, x) == Recorded(b, s, x)
  {
  }

  /** Fewer records and exactly the fewer pages they account for. */
  lemma SmallerIsCoherent(a: Access, b: Access, slot: nat)
    requires Coherent(a) && |b.frames| == MAX_USER_MAPS && |b.fbs| == MAX_FB_MAPS && slot < MAX_CAPS
    requires b.table.caps == a.table.caps[slot := None] && b.pages == a.pages - PagesThrough(a, slot)
    requires forall s: nat, x: nat :: Recorded(b, s, x) <==> s != slot && Recorded(a, s, x)
    requires forall k :: 0 <= k < MAX_USER_MAPS && b.frames[k].Some? ==> b.frames[k] == a.frames[k] && b.frames[k].value.slot != slot
    requires forall k :: 0 <= k < MAX_FB_MAPS && b.fbs[k].Some? ==> b.fbs[k] == a.fbs[k] && b.fbs[k].value.slot != slot
    ensures Coherent(b)
  {
    forall k | 0 <= k < MAX_USER_MAPS && b.frames[k].Some? ensures FrameOk(b, b.frames[k].value) {
      assert FrameAt(a.frames[k], b.frames[k].value.slot, b.frames[k].value.va);
      StillMapped(a, b, slot, b.frames[k].value.slot, b.frames[k].value.va);
    }
    forall k | 0 <= k < MAX_FB_MAPS && b.fbs[k].Some? ensures FbOk(b, b.fbs[k].value) {
      var r := b.fbs[k].value;
      forall x: nat | InStretch(x, r.va, r.pages)
        ensures Window(x) && x in b.pages && b.pages[x] == a.pages[x]
      {
        assert FbAt(a.fbs[k], r.slot, x);
        StillMapped(a, b, slot, r.slot, x);
      }
    }
  }

  lemma StillMapped(a: Access, b: Access, slot: nat, s: nat, x: nat)
    requires Coherent(a) && b.pages == a.pages - PagesThrough(a, slot) && s != slot && Recorded(a, s, x)
    ensures Window(x) && x in b.pages && b.pages[x] == a.pages[x]
  {
    RecordedIsMapped(a, s, x);
  }

  /** A table that holds at least what it held, whatever else arrived in it. */
  predicate StillHolds(t: Table, u: Table) {
    forall s :: 0 <= s < MAX_CAPS && t.caps[s].Some? ==>
      u.caps[s].Some? && u.caps[s].value.target == t.caps[s].value.target && u.caps[s].value.rights == t.caps[s].value.rights
  }

  lemma ArrivalKeeps(a: Access, table: Table)
    requires Coherent(a) && StillHolds(a.table, table)
    ensures Coherent(a.(table := table)) && SameLoose(a, a.(table := table))
  {
    var b := a.(table := table);
    forall s: nat, x: nat ensures Recorded(b, s, x) == Recorded(a, s, x) { SameRecords(a, b, s, x); }
    forall k | 0 <= k < MAX_USER_MAPS && b.frames[k].Some? ensures FrameOk(b, b.frames[k].value) {
      assert FrameOk(a, a.frames[k].value);
    }
    forall k | 0 <= k < MAX_FB_MAPS && b.fbs[k].Some? ensures FbOk(b, b.fbs[k].value) {
      assert FbOk(a, a.fbs[k].value);
    }
  }

  /** More pages, all recorded under one slot and none of them mapped before. */
  ghost predicate Grown(a: Access, b: Access, slot: nat, more: map<nat, Mapping>) {
    && b.table == a.table && |b.frames| == |a.frames| && |b.fbs| == |a.fbs|
    && more.Keys !! a.pages.Keys && b.pages == a.pages + more
    && forall s: nat, x: nat :: Recorded(b, s, x) <==> Recorded(a, s, x) || (s == slot && x in more)
  }

  lemma GrownIsCoherent(a: Access, b: Access, slot: nat, more: map<nat, Mapping>)
    requires Coherent(a) && Grown(a, b, slot, more)
    requires forall k :: 0 <= k < MAX_USER_MAPS && b.frames[k].Some? ==> b.frames[k] == a.frames[k] || FrameOk(b, b.frames[k].value)
    requires forall k :: 0 <= k < MAX_FB_MAPS && b.fbs[k].Some? ==> b.fbs[k] == a.fbs[k] || FbOk(b, b.fbs[k].value)
    ensures Coherent(b) && SameLoose(a, b)
  {
    hide Recorded;
    forall k | 0 <= k < MAX_USER_MAPS && b.frames[k].Some? ensures FrameOk(b, b.frames[k].value) {
      if b.frames[k] == a.frames[k] { assert FrameOk(a, a.frames[k].value); }
    }
    forall k | 0 <= k < MAX_FB_MAPS && b.fbs[k].Some? ensures FbOk(b, b.fbs[k].value) {
      if b.fbs[k] == a.fbs[k] { assert FbOk(a, a.fbs[k].value); }
    }
    forall x: nat ensures InRecord(b, x) <==> InRecord(a, x) || x in more {
      if x in more { assert Recorded(b, slot, x); }
    }
    forall x: nat, s: nat, t: nat | Recorded(b, s, x) && Recorded(b, t, x) ensures s == t {
      if Recorded(a, s, x) { RecordedIsMapped(a, s, x); }
      if Recorded(a, t, x) { RecordedIsMapped(a, t, x); }
    }
  }

  /** `frame_map` succeeds exactly for an aligned, unmapped address in the window, a
      frame held with the map right, and a free record; then that one page appears. */
  lemma FrameMapKeeps(a: Access, slot: nat, va: nat, room: bool)
    requires Coherent(a)
    ensures var (b, ok) := FrameMapStep(a, slot, va, room);
      && Coherent(b) && SameLoose(a, b) && (!ok ==> b == a)
      && (ok <==> va % FRAME_SIZE == 0 && Window(va) && va !in a.pages && room && None in a.frames
                  && slot < MAX_CAPS && a.table.caps[slot].Some? && MayMap in a.table.caps[slot].value.rights
                  && a.table.caps[slot].value.target.Frame?)
      && (ok ==> Grown(a, b, slot, map[va := Mapping(a.table.caps[slot].value.target.addr, true, false)]))
  {
    var (b, ok) := FrameMapStep(a, slot, va, room);
    if ok {
      var k := Vacant(a.frames).value;
      forall s: nat, x: nat ensures Recorded(b, s, x) <==> Recorded(a, s, x) || (s == slot && x == va) {
        FrameRecorded(a, k, FrameRecord(va, slot), s, x);
        SameRecords(b, a.(frames := a.frames[k := Some(FrameRecord(va, slot))]), s, x);
      }
      GrownIsCoherent(a, b, slot, map[va := Shared(a.table.caps[slot].value.target.addr)]);
    }
  }

  lemma FrameRecorded(a: Access, k: nat, r: FrameRecord, s: nat, x: nat)
    requires k < |a.frames| && a.frames[k].None?
    ensures Recorded(a.(frames := a.frames[k := Some(r)]), s, x) <==> Recorded(a, s, x) || (s == r.slot && x == r.va)
  {
    var b := a.(frames := a.frames[k := Some(r)]);
    if Recorded(a, s, x) {
      if j :| 0 <= j < |a.frames| && FrameAt(a.frames[j], s, x) { assert FrameAt(b.frames[j], s, x); }
    }
    if s == r.slot && x == r.va { assert FrameAt(b.frames[k], s, x); }
    if j :| 0 <= j < |b.frames| && FrameAt(b.frames[j], s, x) { assert j == k || FrameAt(a.frames[j], s, x); }
  }

  /** The `k`th page from `va`. */
  function Nth(va: nat, k: nat): nat { va + k * FRAME_SIZE }

  /** `n` whole pages from `va`, inside the window, none of them mapped. */
  ghost predicate FreeSpan(a: Access, va: nat, n: nat) {
    && n > 0 && va % FRAME_SIZE == 0 && USER_MAP_BASE <= va && va + n * FRAME_SIZE <= USER_MAP_END
    && forall k: nat :: k < n ==> Nth(va, k) !in a.pages
  }

  /** Beside what was mapped, page `k` from `va` is mapped to `phys[k]`, to be written
      and not to be executed. */
  ghost predicate MapsThese(was: map<nat, Mapping>, now: map<nat, Mapping>, va: nat, phys: seq<nat>) {
    && (forall x :: x in was ==> x in now && now[x] == was[x])
    && (forall k :: 0 <= k < |phys| ==> Nth(va, k) in now && now[Nth(va, k)] == Mapping(phys[k], true, false))
    && forall x :: x in now && x !in was ==> exists k :: 0 <= k < |phys| && x == Nth(va, k)
  }

  lemma StretchIsNth(a: Access, va: nat, n: nat)
    ensures StretchVas(va, n) !! a.pages.Keys <==> forall k: nat :: k < n ==> Nth(va, k) !in a.pages
    ensures forall k: nat :: k < n ==> Nth(va, k) in StretchVas(va, n) && (Nth(va, k) - va) / FRAME_SIZE == k
    ensures forall x :: x in StretchVas(va, n) ==> va <= x && (x - va) / FRAME_SIZE < n && x == Nth(va, (x - va) / FRAME_SIZE)
  {
    forall k: nat | k < n ensures Nth(va, k) in StretchVas(va, n) { assert (k * FRAME_SIZE) % FRAME_SIZE == 0; }
    forall x | x in StretchVas(va, n) ensures va <= x && (x - va) / FRAME_SIZE < n && x == Nth(va, (x - va) / FRAME_SIZE) {
    }
  }

  lemma StretchMapsThese(a: Access, va: nat, base: nat, n: nat)
    requires StretchVas(va, n) !! a.pages.Keys
    ensures MapsThese(a.pages, a.pages + Stretch(va, base, n), va, seq(n, k requires 0 <= k => base + k * FRAME_SIZE))
  {
    hide StretchVas;
    StretchIsNth(a, va, n);
    var now := a.pages + Stretch(va, base, n);
    forall x | x in now && x !in a.pages ensures exists k :: 0 <= k < n && x == Nth(va, k) {
      var k := (x - va) / FRAME_SIZE;
      assert 0 <= k < n && x == Nth(va, k);
    }
    forall k: nat | k < n ensures Nth(va, k) in now && now[Nth(va, k)] == Mapping(base + k * FRAME_SIZE, true, false) {
      assert Nth(va, k) in StretchVas(va, n) && (Nth(va, k) - va) / FRAME_SIZE == k;
    }
  }

  /** Whole pages, enough for every byte of the picture and not one more. */
  lemma FbPagesHold(target: CapObject)
    requires target.Framebuffer?
    ensures var bytes := target.height * target.stride * target.bytesPerPixel;
            bytes <= FbPages(target) * FRAME_SIZE < bytes + FRAME_SIZE
  {
  }

  /** `fb_map` succeeds if and only if the slot holds a framebuffer with the map right, a
      record is free, the picture is not empty, its pages are a free span, and the
      geometry can be told; then it is that picture that appears there. Otherwise
      nothing does. */
  lemma FbMapKeeps(a: Access, slot: nat, va: nat, infoOk: bool, room: bool)
    requires Coherent(a)
    ensures var (b, ok) := FbMapStep(a, slot, va, infoOk, room);
      && Coherent(b) && SameLoose(a, b) && (!ok ==> b == a)
      && (ok <==> slot < MAX_CAPS && a.table.caps[slot].Some? && MayMap in a.table.caps[slot].value.rights
                  && a.table.caps[slot].value.target.Framebuffer? && None in a.fbs && infoOk && room
                  && FreeSpan(a, va, FbPages(a.table.caps[slot].value.target)))
      && (ok ==> var target := a.table.caps[slot].value.target;
                 && Grown(a, b, slot, Stretch(va, target.base, FbPages(target)))
                 && MapsThese(a.pages, b.pages, va, seq(FbPages(target), k requires 0 <= k => target.base + k * FRAME_SIZE)))
  {
    hide Coherent, Grown, SameLoose, MapsThese, Stretch, StretchVas, FbPages;
    var (b, ok) := FbMapStep(a, slot, va, infoOk, room);
    FbMapGrows(a, slot, va, infoOk, room);
    if slot < MAX_CAPS && a.table.caps[slot].Some? && a.table.caps[slot].value.target.Framebuffer? {
      var target := a.table.caps[slot].value.target;
      StretchIsNth(a, va, FbPages(target));
      if ok { StretchMapsThese(a, va, target.base, FbPages(target)); }
    }
  }

  lemma FbMapGrows(a: Access, slot: nat, va: nat, infoOk: bool, room: bool)
    requires Coherent(a)
    ensures var (b, ok) := FbMapStep(a, slot, va, infoOk, room);
      && Coherent(b) && SameLoose(a, b)
      && (ok ==> var target := a.table.caps[slot].value.target;
                 Grown(a, b, slot, Stretch(va, target.base, FbPages(target))))
  {
    var (b, ok) := FbMapStep(a, slot, va, infoOk, room);
    if ok {
      var k := Vacant(a.fbs).value;
      var target := a.table.caps[slot].value.target;
      var r := FbRecord(va, FbPages(target), slot);
      forall s: nat, x: nat ensures Recorded(b, s, x) <==> Recorded(a, s, x) || (s == slot && InStretch(x, va, r.pages)) {
        FbRecorded(a, k, r, s, x);
        SameRecords(b, a.(fbs := a.fbs[k := Some(r)]), s, x);
      }
      assert forall x: nat :: x in Stretch(va, target.base, r.pages) <==> InStretch(x, va, r.pages);
      GrownIsCoherent(a, b, slot, Stretch(va, target.base, r.pages));
    }
  }

  lemma FbRecorded(a: Access, k: nat, r: FbRecord, s: nat, x: nat)
    requires k < |a.fbs| && a.fbs[k].None?
    ensures Recorded(a.(fbs := a.fbs[k := Some(r)]), s, x) <==> Recorded(a, s, x) || (s == r.slot && InStretch(x, r.va, r.pages))
  {
    var b := a.(fbs := a.fbs[k := Some(r)]);
    if Recorded(a, s, x) {
      if j :| 0 <= j < |a.fbs| && FbAt(a.fbs[j], s, x) { assert FbAt(b.fbs[j], s, x); }
    }
    if s == r.slot && InStretch(x, r.va, r.pages) { assert FbAt(b.fbs[k], s, x); }
    if j :| 0 <= j < |b.fbs| && FbAt(b.fbs[j], s, x) { assert j == k || FbAt(a.fbs[j], s, x); }
  }

  // ----- bound devices -----

  /** A directly bound device: its doorbell page, which is device memory, and the five
      pooled frames its queue and buffers live in. */
  datatype Binding = Binding(notify: nat, desc: nat, avail: nat, used: nat, buf: nat, data: nat)

  const BIND_PAGES: nat := 6

  /** Physical pages in the order they are mapped. */
  function DevicePages(b: Binding): (r: seq<nat>)
    ensures |r| == BIND_PAGES
  {
    [b.notify, b.desc, b.avail, b.used, b.buf, b.data]
  }

  function DeviceFrames(b: Binding): (r: seq<nat>)
    ensures |r| == 5
  {
    [b.desc, b.avail, b.used, b.buf, b.data]
  }

  /** Consecutive pages from `va`, onto these physical pages. */
  function PageRun(va: nat, phys: seq<nat>): map<nat, Mapping> {
    map x | x in StretchVas(va, |phys|) :: Shared(phys[(x - va) / FRAME_SIZE])
  }

  function BindMap(va: nat, b: Binding): map<nat, Mapping> {
    PageRun(va, DevicePages(b))
  }

  /** `bind_device`: six pages, and no record of them. */
  function BindStep(a: Access, bound: map<nat, Binding>, slot: nat, va: nat, infoOk: bool, room: bool): (Access, bool) {
    match Granted(a.table, slot, MayMap)
    case Some(BoundDevice(dev)) =>
      if va % FRAME_SIZE != 0 || va < USER_MAP_BASE || va + BIND_PAGES * FRAME_SIZE > USER_MAP_END || !infoOk || dev !in bound || !room
         || !(StretchVas(va, BIND_PAGES) !! a.pages.Keys)
      then (a, false)
      else (a.(pages := a.pages + BindMap(va, bound[dev])), true)
    case _ => (a, false)
  }

  /** `bind_device` succeeds if and only if the slot holds a bound device with the map
      right, six pages are a free span, and the addresses can be told. Then the doorbell,
      the three rings, the header and the data page appear there in that order, loose;
      every record and every other page is as it was. */
  lemma BindIsLoose(a: Access, bound: map<nat, Binding>, slot: nat, va: nat, infoOk: bool, room: bool)
    requires Coherent(a)
    ensures var (b, ok) := BindStep(a, bound, slot, va, infoOk, room);
      && Coherent(b) && b.table == a.table && (!ok ==> b == a)
      && (ok <==> slot < MAX_CAPS && a.table.caps[slot].Some? && MayMap in a.table.caps[slot].value.rights
                  && a.table.caps[slot].value.target.BoundDevice? && a.table.caps[slot].value.target.dev in bound
                  && infoOk && room && FreeSpan(a, va, 6))
      && (ok ==> var d := bound[a.table.caps[slot].value.target.dev];
                 && b == a.(pages := b.pages) && MapsThese(a.pages, b.pages, va, [d.notify, d.desc, d.avail, d.used, d.buf, d.data])
                 && b.pages == a.pages + BindMap(va, d)
                 && forall x: nat :: Loose(b, x) <==> Loose(a, x) || InStretch(x, va, 6))
  {
    hide Coherent, MapsThese, PageRun, StretchVas, Loose, InStretch;
    StretchIsNth(a, va, BIND_PAGES);
    BindGrows(a, bound, slot, va, infoOk, room);
    if BindStep(a, bound, slot, va, infoOk, room).1 { RunMapsThese(a, va, DevicePages(bound[a.table.caps[slot].value.target.dev])); }
  }

  lemma RunMapsThese(a: Access, va: nat, phys: seq<nat>)
    requires StretchVas(va, |phys|) !! a.pages.Keys
    ensures MapsThese(a.pages, a.pages + PageRun(va, phys), va, phys)
  {
    hide StretchVas;
    StretchIsNth(a, va, |phys|);
    var now := a.pages + PageRun(va, phys);
    forall x | x in now && x !in a.pages ensures exists k :: 0 <= k < |phys| && x == Nth(va, k) {
      var k := (x - va) / FRAME_SIZE;
      assert 0 <= k < |phys| && x == Nth(va, k);
    }
    forall k: nat | k < |phys| ensures Nth(va, k) in now && now[Nth(va, k)] == Mapping(phys[k], true, false) {
      assert Nth(va, k) in StretchVas(va, |phys|) && (Nth(va, k) - va) / FRAME_SIZE == k;
    }
  }

  lemma BindGrows(a: Access, bound: map<nat, Binding>, slot: nat, va: nat, infoOk: bool, room: bool)
    requires Coherent(a)
    ensures var (b, ok) := BindStep(a, bound, slot, va, infoOk, room);
      Coherent(b) && (ok ==> forall x: nat :: Loose(b, x) <==> Loose(a, x) || InStretch(x, va, BIND_PAGES))
  {
    var (b, ok) := BindStep(a, bound, slot, va, infoOk, room);
    if ok {
      forall s: nat, x: nat ensures Recorded(b, s, x) == Recorded(a, s, x) { SameRecords(a, b, s, x); }
      forall x: nat | InRecord(a, x) ensures Window(x) && x in a.pages {
        var s: nat :| Recorded(a, s, x);
        RecordedIsMapped(a, s, x);
      }
      WidenedIsCoherent(a, b);
    }
  }

  lemma WidenedIsCoherent(a: Access, b: Access)
    requires Coherent(a) && b.table == a.table && b.frames == a.frames && b.fbs == a.fbs
    requires forall x :: x in a.pages ==> x in b.pages && b.pages[x] == a.pages[x]
    ensures Coherent(b)
  {
    forall s: nat, x: nat ensures Recorded(b, s, x) == Recorded(a, s, x) { SameRecords(a, b, s, x); }
    forall k | 0 <= k < MAX_USER_MAPS && b.frames[k].Some? ensures FrameOk(b, b.frames[k].value) {
      assert FrameOk(a, a.frames[k].value);
    }
    forall k | 0 <= k < MAX_FB_MAPS && b.fbs[k].Some? ensures FbOk(b, b.fbs[k].value) {
      assert FbOk(a, a.fbs[k].value);
    }
  }
}
