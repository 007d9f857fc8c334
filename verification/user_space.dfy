/** A process's capabilities, mapping records and page tables as the kernel keeps
    them, updated in place (kernel/src/process.rs, kernel/src/syscall.rs). */
module UserSpaces {
  import opened Prelude
  import opened Capabilities
  import opened FrameAllocator
  import opened Loader
  import opened UserMaps

  class UserSpace {
    const caps: CapTable
    const frames: array<Option<FrameRecord>>
    const fbs: array<Option<FbRecord>>
    const space: AddressSpace

    ghost predicate Valid() {
      caps.Valid() && frames.Length == MAX_USER_MAPS && fbs.Length == MAX_FB_MAPS
    }

    ghost function Acc(): Access
      requires Valid()
      reads caps.slots, caps.reserved, frames, fbs, space
    {
      Access(caps.View(), frames[..], fbs[..], space.pages)
    }

    constructor (caps: CapTable, space: AddressSpace)
      requires caps.Valid()
      ensures Valid() && this.caps == caps && this.space == space && fresh(frames) && fresh(fbs)
      ensures Acc() == Access(caps.View(), seq(MAX_USER_MAPS, _ => None), seq(MAX_FB_MAPS, _ => None), space.pages)
    {
      this.caps, this.space := caps, space;
      frames := new Option<FrameRecord>[MAX_USER_MAPS](_ => None);
      fbs := new Option<FbRecord>[MAX_FB_MAPS](_ => None);
    }

    method Lookup(slot: nat, right: Right) returns (r: Option<CapObject>)
      requires Valid()
      ensures r == Granted(caps.View(), slot, right)
    {
      if slot >= MAX_CAPS || caps.slots[slot].None? || right !in caps.slots[slot].value.rights {
        return None;
      }
      return Some(caps.slots[slot].value.target);
    }

    /** `sys_frame_map`. */
    method MapFrame(slot: nat, va: nat) returns (ok: bool)
      requires Valid()
      modifies frames, space
      ensures (Acc(), ok) == FrameMapStep(old(Acc()), slot, va, old(space.spare) > 0)
    {
      if va % FRAME_SIZE != 0 || va < USER_MAP_BASE || va >= USER_MAP_END {
        return false;
      }
      var target := Lookup(slot, MayMap);
      if target.None? || !target.value.Frame? {
        return false;
      }
      var k := FirstNone(frames);
      if k == frames.Length {
        return false;
      }
      ok := space.MapPage(va, Shared(target.value.addr));
      if ok {
        frames[k] := Some(FrameRecord(va, slot));
        assert frames[..] == old(frames[..])[k := Some(FrameRecord(va, slot))];
      }
    }

    static method FirstNone<T>(a: array<Option<T>>) returns (k: nat)
      ensures k <= a.Length && Vacant(a[..]) == if k < a.Length then Some(k) else None
    {
      k := 0;
      while k < a.Length && a[k].Some?
        invariant k <= a.Length && forall i :: 0 <= i < k ==> a[i].Some?
      {
        k := k + 1;
      }
      assert Vacant(a[..]) == if k < a.Length then Some(k) else None by { VacantIs(a[..], 0, k); }
    }

    /** `sys_fb_map`: the whole stretch, or a failure that takes back what was mapped. */
    method MapFb(slot: nat, va: nat, infoOk: bool) returns (ok: bool)
      requires Valid()
      modifies fbs, space
      ensures (Acc(), ok) == FbMapStep(old(Acc()), slot, va, infoOk, FbRoom(old(Acc()), slot, old(space.spare)))
    {
      var target := Lookup(slot, MayMap);
      if target.None? || !target.value.Framebuffer? {
        return false;
      }
      var k := FirstNone(fbs);
      if k == fbs.Length {
        return false;
      }
      var n := FbPages(target.value);
      if n == 0 || va % FRAME_SIZE != 0 || va < USER_MAP_BASE || va + n * FRAME_SIZE > USER_MAP_END || !infoOk {
        return false;
      }
      ok := MapStretch(va, target.value.base, n);
      if ok {
        fbs[k] := Some(FbRecord(va, n, slot));
        assert fbs[..] == old(fbs[..])[k := Some(FbRecord(va, n, slot))];
      }
    }

    method MapStretch(va: nat, base: nat, n: nat) returns (ok: bool)
      requires Valid()
      modifies space
      ensures ok <==> StretchVas(va, n) !! old(space.pages.Keys) && old(space.spare) >= n
      ensures space.pages == if ok then old(space.pages) + Stretch(va, base, n) else old(space.pages)
    {
      hide Stretch, StretchVas;
      StretchNone(va, base);
      for j := 0 to n
        invariant StretchVas(va, j) !! old(space.pages.Keys) && space.spare + j == old(space.spare)
        invariant space.pages == old(space.pages) + Stretch(va, base, j)
      {
        StretchMore(va, base, j);
        StretchGrows(va, j + 1, n);
        var mapped := space.MapPage(va + j * FRAME_SIZE, Shared(base + j * FRAME_SIZE));
        if !mapped {
          UnmapStretch(va, j);
          return false;
        }
      }
      return true;
    }

    method UnmapStretch(va: nat, n: nat)
      requires Valid()
      modifies space
      ensures space.pages == old(space.pages) - StretchVas(va, n)
    {
      StretchNone(va, 0);
      for j := 0 to n
        invariant space.pages == old(space.pages) - StretchVas(va, j)
      {
        StretchMore(va, 0, j);
        space.Unmap(va + j * FRAME_SIZE);
      }
    }

    /** `sys_bind_device`: six pages or none, and no record of them. */
    method BindDevice(bound: map<nat, Binding>, slot: nat, va: nat, infoOk: bool) returns (ok: bool)
      requires Valid()
      modifies space
      ensures (Acc(), ok) == BindStep(old(Acc()), bound, slot, va, infoOk, old(space.spare) >= BIND_PAGES)
    {
      var target := Lookup(slot, MayMap);
      if target.None? || !target.value.BoundDevice? {
        return false;
      }
      if va % FRAME_SIZE != 0 || va < USER_MAP_BASE || va + BIND_PAGES * FRAME_SIZE > USER_MAP_END || !infoOk {
        return false;
      }
      if target.value.dev !in bound {
        return false;
      }
      ok := MapPages(va, DevicePages(bound[target.value.dev]));
    }

    method MapPages(va: nat, phys: seq<nat>) returns (ok: bool)
      requires Valid()
      modifies space
      ensures ok <==> StretchVas(va, |phys|) !! old(space.pages.Keys) && old(space.spare) >= |phys|
      ensures space.pages == if ok then old(space.pages) + PageRun(va, phys) else old(space.pages)
    {
      hide PageRun, StretchVas;
      StretchNone(va, 0);
      RunNone(va, phys);
      for j := 0 to |phys|
        invariant StretchVas(va, j) !! old(space.pages.Keys) && space.spare + j == old(space.spare)
        invariant space.pages == old(space.pages) + PageRun(va, phys[..j])
      {
        StretchMore(va, 0, j);
        StretchGrows(va, j + 1, |phys|);
        RunMore(va, phys, j);
        var mapped := space.MapPage(va + j * FRAME_SIZE, Shared(phys[j]));
        if !mapped {
          UnmapStretch(va, j);
          return false;
        }
      }
      assert phys[..|phys|] == phys;
      return true;
    }

    /** `fb_take_slot`: every record naming the slot, in order, cleared. */
    method TakeFbs(slot: nat) returns (taken: seq<FbRecord>)
      requires Valid()
      modifies fbs
      ensures fbs[..] == FbsOff(old(fbs[..]), slot)
      ensures forall r :: r in taken <==> r.slot == slot && Some(r) in old(fbs[..])
    {
      taken := [];
      for k := 0 to fbs.Length
        invariant forall i :: 0 <= i < k ==> fbs[i] == FbsOff(old(fbs[..]), slot)[i]
        invariant forall i :: k <= i < fbs.Length ==> fbs[i] == old(fbs[i])
        invariant forall r :: r in taken <==> r.slot == slot && Some(r) in old(fbs[..])[..k]
      {
        if fbs[k].Some? && fbs[k].value.slot == slot {
          taken := taken + [fbs[k].value];
          fbs[k] := None;
        }
      }
    }

    /** `unmap_fb_for_slot`. */
    method UnmapFb(slot: nat)
      requires Valid()
      modifies fbs, space
      ensures fbs[..] == FbsOff(old(fbs[..]), slot) && space.pages == old(space.pages) - FbVas(old(fbs[..]), slot)
    {
      var taken := TakeFbs(slot);
      for k := 0 to |taken|
        invariant fbs[..] == FbsOff(old(fbs[..]), slot)
        invariant space.pages == old(space.pages) - Spread(taken[..k])
      {
        assert Spread(taken[..k + 1]) == Spread(taken[..k]) + StretchVas(taken[k].va, taken[k].pages) by { SpreadMore(taken, k); }
        UnmapStretch(taken[k].va, taken[k].pages);
      }
      assert taken[..|taken|] == taken;
      SpreadIsTaken(old(fbs[..]), slot, taken);
    }

    method UnmapFrames(slot: nat)
      requires Valid()
      modifies frames, space
      ensures frames[..] == FramesOff(old(frames[..]), slot) && space.pages == old(space.pages) - FrameVas(old(frames[..]), slot)
    {
      for k := 0 to frames.Length
        invariant forall i :: 0 <= i < k ==> frames[i] == FramesOff(old(frames[..]), slot)[i]
        invariant forall i :: k <= i < frames.Length ==> frames[i] == old(frames[i])
        invariant space.pages == old(space.pages) - FrameVas(old(frames[..])[..k], slot)
      {
        FrameVasMore(old(frames[..]), slot, k);
        if frames[k].Some? && frames[k].value.slot == slot {
          space.Unmap(frames[k].value.va);
          frames[k] := None;
        }
      }
      assert old(frames[..])[..frames.Length] == old(frames[..]);
    }

    /** `revoke_and_unmap`: the access leaves with the authority. */
    method RevokeAndUnmap(slot: nat) returns (cap: Option<Capability>)
      requires Valid()
      modifies caps.slots, frames, fbs, space
      ensures (Acc(), cap) == RevokeStep(old(Acc()), slot)
    {
      ghost var was := caps.View();
      cap := caps.Revoke(slot);
      if cap.None? {
        assert slot < MAX_CAPS ==> was.caps[slot := None] == was.caps;
      } else {
        match cap.value.target
        case Frame(_) => UnmapFrames(slot);
        case Framebuffer(_, _, _, _, _, _) => UnmapFb(slot);
        case _ =>
      }
    }

    /** `revoke_and_unmap_for_lend`: the same, with the slot held open if the loan can
        come home. */
    method RevokeForLend(slot: nat) returns (cap: Option<Capability>)
      requires Valid()
      modifies caps.slots, caps.reserved, frames, fbs, space
      ensures cap == Held(old(Acc()).table, slot)
      ensures Acc() == if cap.None? then old(Acc())
                       else Cut(old(Acc()).(table := LentFrom(old(Acc()).table, slot)), slot, cap.value.target)
    {
      var reserves := slot < MAX_CAPS && caps.slots[slot].Some? && LendReserves(caps.slots[slot].value);
      cap := RevokeAndUnmap(slot);
      if reserves {
        caps.ClaimSlot(slot);
      }
    }

    /** `teardown`: the frame mappings, the table, then what the loader set up. Every
        frame the process owned is free again, once each, and no other. */
    method Teardown(fa: FrameAlloc, boot: seq<Option<(nat, nat)>>)
      requires Valid() && fa.Valid()
      requires OwnedOnce(TableAddrs(caps.View()) + BootAddrs(boot), fa.frames, fa.avail)
      modifies caps.slots, space, fa, fa.bitmap
      ensures fa.Valid() && fa.avail == old(fa.avail) + FrameNumbers(TableAddrs(old(caps.View())) + BootAddrs(boot))
      ensures forall s :: 0 <= s < MAX_CAPS ==> caps.slots[s].None?
      ensures space.pages.Keys <= old(space.pages.Keys)
      ensures forall k :: 0 <= k < MAX_USER_MAPS && frames[k].Some? ==> frames[k].value.va !in space.pages
      ensures forall k :: 0 <= k < |boot| && boot[k].Some? ==> boot[k].value.0 !in space.pages
    {
      hide FrameAlloc.Valid, FrameNumbers, OwnedOnce;
      ghost var addrs := TableAddrs(caps.View()) + BootAddrs(boot);
      UnmapRecorded();
      DrainTable(fa, addrs);
      for k := 0 to |boot|
        invariant fa.Valid() && fa.avail == old(fa.avail) + FrameNumbers(addrs[..MAX_CAPS + k])
        invariant space.pages.Keys <= old(space.pages.Keys) && forall s :: 0 <= s < MAX_CAPS ==> caps.slots[s].None?
        invariant forall i :: 0 <= i < MAX_USER_MAPS && frames[i].Some? ==> frames[i].value.va !in space.pages
        invariant forall i :: 0 <= i < k && boot[i].Some? ==> boot[i].value.0 !in space.pages
      {
        if boot[k].Some? {
          space.Unmap(boot[k].value.0);
        }
        GiveBack(fa, if boot[k].Some? then Some(boot[k].value.1) else None, addrs, MAX_CAPS + k, old(fa.avail));
      }
      assert addrs[..MAX_CAPS + |boot|] == addrs;
    }

    /** One entry of what the process owned, if it is a frame. */
    static method GiveBack(fa: FrameAlloc, addr: Option<nat>, ghost addrs: seq<Option<nat>>, ghost k: nat, ghost avail: set<nat>)
      requires fa.Valid() && OwnedOnce(addrs, fa.frames, avail) && k < |addrs| && addr == addrs[k]
      requires fa.avail == avail + FrameNumbers(addrs[..k])
      modifies fa, fa.bitmap
      ensures fa.Valid() && fa.avail == avail + FrameNumbers(addrs[..k + 1])
    {
      hide FrameAlloc.Valid, FrameNumbers;
      FrameNumbersMore(addrs, k, fa.frames, avail);
      if addr.Some? {
        var _ := fa.Dealloc(addr.value);
      }
    }

    method UnmapRecorded()
      requires Valid()
      modifies space
      ensures space.pages.Keys <= old(space.pages.Keys)
      ensures forall k :: 0 <= k < MAX_USER_MAPS && frames[k].Some? ==> frames[k].value.va !in space.pages
    {
      for k := 0 to frames.Length
        invariant space.pages.Keys <= old(space.pages.Keys)
        invariant forall i :: 0 <= i < k && frames[i].Some? ==> frames[i].value.va !in space.pages
      {
        if frames[k].Some? {
          space.Unmap(frames[k].value.va);
        }
      }
    }

    /** `unbind`: the five frames of a binding, back to the allocator. No page table is
        touched. */
    static method Unbind(fa: FrameAlloc, b: Binding)
      requires fa.Valid() && OwnedOnce(OwnedAddrs(b), fa.frames, fa.avail)
      modifies fa, fa.bitmap
      ensures fa.Valid() && fa.avail == old(fa.avail) + FrameNumbers(OwnedAddrs(b))
    {
      hide FrameAlloc.Valid, FrameNumbers, OwnedOnce;
      ghost var addrs := OwnedAddrs(b);
      NothingOwned();
      assert addrs[..0] == [];
      var fs := DeviceFrames(b);
      for k := 0 to |fs|
        invariant fa.Valid() && fa.avail == old(fa.avail) + FrameNumbers(addrs[..k])
      {
        GiveBack(fa, Some(fs[k]), addrs, k, old(fa.avail));
      }
      assert addrs[..|fs|] == addrs;
    }

    /** `drain`, for the one kind of capability that owns a pooled frame. */
    method DrainTable(fa: FrameAlloc, ghost addrs: seq<Option<nat>>)
      requires Valid() && fa.Valid() && OwnedOnce(addrs, fa.frames, fa.avail)
      requires |addrs| >= MAX_CAPS && forall s :: 0 <= s < MAX_CAPS ==> addrs[s] == OwnedFrame(caps.slots[s])
      modifies caps.slots, fa, fa.bitmap
      ensures fa.Valid() && fa.avail == old(fa.avail) + FrameNumbers(addrs[..MAX_CAPS])
      ensures forall s :: 0 <= s < MAX_CAPS ==> caps.slots[s].None?
    {
      hide FrameAlloc.Valid, FrameNumbers, OwnedOnce, OwnedFrame;
      assert FrameNumbers(addrs[..0]) == {} by { NothingOwned(); }
      for s := 0 to MAX_CAPS
        invariant fa.Valid() && fa.avail == old(fa.avail) + FrameNumbers(addrs[..s])
        invariant forall i :: 0 <= i < s ==> caps.slots[i].None?
        invariant forall i :: s <= i < MAX_CAPS ==> caps.slots[i] == old(caps.slots[i])
      {
        var cap := caps.slots[s];
        caps.slots[s] := None;
        GiveBack(fa, OwnedFrame(cap), addrs, s, old(fa.avail));
      }
    }
  }

  lemma {:induction false} VacantIs<T>(s: seq<Option<T>>, from: nat, k: nat)
    requires from <= k <= |s| && (forall i :: from <= i < k ==> s[i].Some?) && (k < |s| ==> s[k].None?)
    ensures Vacant(s, from) == if k < |s| then Some(k) else None
    decreases k - from
  {
    if from < k {
      VacantIs(s, from + 1, k);
    }
  }

  /** The frame a capability owns outright: what its release gives back. */
  function OwnedFrame(c: Option<Capability>): Option<nat> {
    if c.Some? && OnRelease(c.value).FreeFrame? then Some(OnRelease(c.value).addr) else None
  }

  function FrameNumbers(addrs: seq<Option<nat>>): set<nat> {
    set k | 0 <= k < |addrs| && addrs[k].Some? :: addrs[k].value / FRAME_SIZE
  }

  function TableAddrs(t: Table): seq<Option<nat>> {
    seq(MAX_CAPS, s requires 0 <= s < MAX_CAPS => OwnedFrame(t.caps[s]))
  }

  function OwnedAddrs(b: Binding): (r: seq<Option<nat>>)
    ensures |r| == 5
  {
    seq(5, k requires 0 <= k < 5 => Some(DeviceFrames(b)[k]))
  }

  function BootAddrs(boot: seq<Option<(nat, nat)>>): seq<Option<nat>> {
    seq(|boot|, k requires 0 <= k < |boot| => if boot[k].Some? then Some(boot[k].value.1) else None)
  }

  /** Whole frames, each owned once, and none of them free. */
  ghost predicate OwnedOnce(addrs: seq<Option<nat>>, limit: nat, avail: set<nat>) {
    && (forall k :: 0 <= k < |addrs| && addrs[k].Some? ==>
          addrs[k].value % FRAME_SIZE == 0 && addrs[k].value / FRAME_SIZE < limit && addrs[k].value / FRAME_SIZE !in avail)
    && forall j, k :: 0 <= j < k < |addrs| && addrs[j].Some? && addrs[k].Some? ==> addrs[j].value != addrs[k].value
  }

  lemma NothingOwned()
    ensures FrameNumbers([]) == {}
  {
  }

  lemma FrameNumbersMore(addrs: seq<Option<nat>>, k: nat, limit: nat, avail: set<nat>)
    requires OwnedOnce(addrs, limit, avail) && k < |addrs|
    ensures FrameNumbers(addrs[..k + 1]) == FrameNumbers(addrs[..k]) + if addrs[k].Some? then {addrs[k].value / FRAME_SIZE} else {}
    ensures addrs[k].Some? ==> addrs[k].value / FRAME_SIZE !in FrameNumbers(addrs[..k])
  {
  }

  /** The mapper has tables for as many pages as the framebuffer in `slot` spans. */
  ghost function FbRoom(a: Access, slot: nat, spare: nat): bool {
    match Held(a.table, slot)
    case Some(cap) => cap.target.Framebuffer? && spare >= FbPages(cap.target)
    case None => false
  }

  lemma StretchNone(va: nat, base: nat)
    ensures StretchVas(va, 0) == {} && Stretch(va, base, 0) == map[]
  {
  }

  lemma StretchMore(va: nat, base: nat, j: nat)
    ensures StretchVas(va, j + 1) == StretchVas(va, j) + {va + j * FRAME_SIZE} && va + j * FRAME_SIZE !in StretchVas(va, j)
    ensures Stretch(va, base, j).Keys == StretchVas(va, j)
    ensures Stretch(va, base, j + 1) == Stretch(va, base, j)[va + j * FRAME_SIZE := Shared(base + j * FRAME_SIZE)]
  {
  }

  lemma RunNone(va: nat, phys: seq<nat>)
    ensures PageRun(va, phys[..0]) == map[]
  {
  }

  lemma RunMore(va: nat, phys: seq<nat>, j: nat)
    requires j < |phys|
    ensures PageRun(va, phys[..j + 1]) == PageRun(va, phys[..j])[va + j * FRAME_SIZE := Shared(phys[j])]
    ensures PageRun(va, phys[..j]).Keys == StretchVas(va, j)
  {
    StretchMore(va, 0, j);
    assert (va + j * FRAME_SIZE - va) / FRAME_SIZE == j;
  }

  lemma StretchGrows(va: nat, j: nat, n: nat)
    requires j <= n
    ensures StretchVas(va, j) <= StretchVas(va, n)
  {
  }

  ghost function Spread(rs: seq<FbRecord>): set<nat> {
    set k, x | 0 <= k < |rs| && x in StretchVas(rs[k].va, rs[k].pages) :: x
  }

  lemma SpreadMore(rs: seq<FbRecord>, k: nat)
    requires k < |rs|
    ensures Spread(rs[..k + 1]) == Spread(rs[..k]) + StretchVas(rs[k].va, rs[k].pages)
  {
  }

  lemma SpreadIsTaken(fbs: seq<Option<FbRecord>>, slot: nat, taken: seq<FbRecord>)
    requires forall r :: r in taken <==> r.slot == slot && Some(r) in fbs
    ensures Spread(taken) == FbVas(fbs, slot)
  {
  }

  lemma FrameVasMore(frames: seq<Option<FrameRecord>>, slot: nat, k: nat)
    requires k < |frames|
    ensures FrameVas(frames[..k + 1], slot)
         == FrameVas(frames[..k], slot) + if frames[k].Some? && frames[k].value.slot == slot then {frames[k].value.va} else {}
  {
  }
}
