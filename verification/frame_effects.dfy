/** What each kernel entry does to frames, tables and mappings when it goes through, told
    from the world before it (kernel/src/syscall.rs, kernel/src/process.rs,
    kernel/src/ipc.rs). */
module FrameEffects {
  import opened Prelude
  import opened Capabilities
  import opened FrameAllocator
  import opened WaitQueues
  import opened IpcSafety
  import M = IpcModel
  import W = IpcWords
  import E = IpcEffects
  import opened Loader
  import opened UserMaps
  import opened FrameWorld
  import opened FrameOwnership
  import opened FrameSteps
  import opened FrameDepartures

  /** Beside who keeps which frames, only the table of `p` changed. */
  ghost predicate OnlyTable(w: World, v: World, p: nat)
    requires Lives(w, p)
  {
    && |v.procs| == |w.procs| && (forall q: nat :: q < |w.procs| && q != p ==> v.procs[q] == w.procs[q])
    && Lives(v, p) && v.procs[p].value.boot == w.procs[p].value.boot
    && AccessOf(v, p) == AccessOf(w, p).(table := TableOf(v, p)) && v.lost == w.lost && v.bound == w.bound
  }

  /** Asking for a frame: the lowest free one, as a capability to read, write and map it
      in the first open slot; refused if and only if there is no frame or no slot. */
  lemma GrabGives(w: World, p: nat)
    requires Lives(w, p)
    ensures var v := GrabStep(w, p);
      if w.avail == {} || E.Packed(TableOf(w, p)) then v == w
      else OnlyTable(w, v, p) && exists f, s ::
             && f in w.avail && (forall g :: g in w.avail ==> f <= g) && v.avail == w.avail - {f}
             && E.Gains(TableOf(w, p), TableOf(v, p), s, Capability(Frame(f * 4096), {MayRead, MayWrite, MayMap}, None))
  {
    hide Install, E.Packed, E.Gains;
    if w.avail != {} {
      var f := Lowest(w.avail);
      var cap := Capability(Frame(f * FRAME_SIZE), {MayRead, MayWrite, MayMap}, None);
      E.InstallGains(TableOf(w, p), cap);
      var s := Install(TableOf(w, p), cap).1;
      if s.Some? { NotBoth(TableOf(w, p), TableOf(GrabStep(w, p), p), s.value, cap); }
    }
  }

  lemma NotBoth(t: Table, u: Table, s: nat, cap: Capability)
    requires E.Gains(t, u, s, cap)
    ensures !E.Packed(t) && s < MAX_CAPS && t.caps[s].None? && u.caps == t.caps[s := Some(cap)] && u.reserved == t.reserved
  {
  }

  /** A grant by the kernel: that capability in the first open slot, if there is one. */
  lemma BestowGives(w: World, p: nat, cap: Capability)
    requires Lives(w, p)
    ensures var v := BestowStep(w, p, cap);
      if E.Packed(TableOf(w, p)) then v == w
      else OnlyTable(w, v, p) && v.avail == w.avail && exists s :: E.Gains(TableOf(w, p), TableOf(v, p), s, cap)
  {
    hide Install, E.Packed, E.Gains;
    E.InstallGains(TableOf(w, p), cap);
    var s := Install(TableOf(w, p), cap).1;
    if s.Some? { NotBoth(TableOf(w, p), TableOf(BestowStep(w, p, cap), p), s.value, cap); }
  }

  // ----- giving -----

  /** There is a place with `q` for this capability. */
  predicate HasPlace(t: Table, cap: Capability, q: nat) {
    || (exists s :: 0 <= s < MAX_CAPS && E.Open(t, s))
    || (cap.origin.Some? && cap.origin.value.lender == q && AwaitsReturn(t, cap.origin.value.home))
  }

  lemma LandsWhere(t: Table, cap: Capability, was: Capability, q: nat)
    requires cap.target == was.target && cap.rights == was.rights
    ensures var (u, k) := InstallHome(t, cap, was.origin, q);
      && (k.Some? <==> HasPlace(t, was, q))
      && (k.Some? ==> k.value < MAX_CAPS && t.caps[k.value].None? && u.caps == t.caps[k.value := Some(cap)])
      && (k.None? ==> u == t)
  {
    hide Install, E.Packed, E.Gains;
    E.InstallGains(t, cap);
    var (u, s) := Install(t, cap);
    if s.Some? {
      NotBoth(t, u, s.value, cap);
      OpenThere(t, u, s.value, cap);
    } else {
      NoneOpen(t);
    }
  }

  lemma OpenThere(t: Table, u: Table, s: nat, cap: Capability)
    requires E.Gains(t, u, s, cap)
    ensures s < MAX_CAPS && E.Open(t, s)
  {
  }

  lemma NoneOpen(t: Table)
    requires E.Packed(t)
    ensures forall s :: 0 <= s < MAX_CAPS ==> !E.Open(t, s)
  {
  }

  /** Exactly the pages recorded under the slot are gone from the window. */
  ghost predicate LosesPages(a: Access, b: Access, slot: nat) {
    b.pages == a.pages - PagesThrough(a, slot) && forall x: nat :: !Recorded(b, slot, x)
  }

  /** A transfer lands if and only if the receiver has a place for it. Then the slot it
      left is empty, the same grant is in one empty slot of the receiver's, the giver has
      lost exactly the pages mapped through it, and nobody else has lost or gained. */
  lemma GiveMoves(w: World, pool: set<nat>, p: nat, slot: nat, q: nat)
    requires Secure(w, pool) && Lives(w, p) && Lives(w, q) && p != q && Held(TableOf(w, p), slot).Some?
    ensures var v := GiveStep(w, p, slot, q); var cap := TableOf(w, p).caps[slot];
      && v.avail == w.avail && v.bound == w.bound && v.lost == w.lost && |v.procs| == |w.procs|
      && (forall x: nat :: x < |w.procs| && x != p && x != q ==> v.procs[x] == w.procs[x])
      && Lives(v, p) && Lives(v, q) && LosesPages(AccessOf(w, p), AccessOf(v, p), slot)
      && (HasPlace(TableOf(w, q), cap.value, q) ==>
            && TableOf(v, p).caps == TableOf(w, p).caps[slot := None]
            && AccessOf(v, q) == AccessOf(w, q).(table := TableOf(v, q))
            && exists k :: 0 <= k < MAX_CAPS && TableOf(w, q).caps[k].None? && W.SameGrant(TableOf(v, q).caps[k], cap)
                 && TableOf(v, q).caps == TableOf(w, q).caps[k := TableOf(v, q).caps[k]])
      && (!HasPlace(TableOf(w, q), cap.value, q) ==> v.procs[q] == w.procs[q])
  {
    hide Secure, Install, InstallHome, LentTo, HasPlace, Cut, LentFrom, Coherent, SameLoose, Recorded, PagesThrough;
    var a := AccessOf(w, p);
    var cap := TableOf(w, p).caps[slot].value;
    HolderFacts(w, pool, p);
    LentCaps(a.table, slot);
    CutIsExact(a, slot, LentFrom(a.table, slot));
    var lent := LentTo(cap, Origin(p, slot), q);
    LandsWhere(TableOf(w, q), lent, cap, q);
    forall x: nat { SameRecords(AccessOf(GiveStep(w, p, slot, q), p), Cut(a.(table := LentFrom(a.table, slot)), slot, cap.target), slot, x); }
    var k := InstallHome(TableOf(w, q), lent, cap.origin, q).1;
    if k.Some? { assert W.SameGrant(TableOf(GiveStep(w, p, slot, q), q).caps[k.value], Some(cap)); }
  }

  lemma LentCaps(t: Table, slot: nat)
    requires slot < MAX_CAPS && t.caps[slot].Some?
    ensures LentFrom(t, slot).caps == t.caps[slot := None]
  {
  }

  // ----- releasing -----

  /** The frames a release of this capability gives back. */
  function FreedBy(w: World, target: CapObject): set<nat> {
    match target
    case Frame(addr) => {addr / 4096}
    case BoundDevice(dev) =>
      if dev !in w.bound then {}
      else var b := w.bound[dev]; {b.desc / 4096, b.avail / 4096, b.used / 4096, b.buf / 4096, b.data / 4096}
    case _ => {}
  }

  /** A release empties its slot and takes exactly the pages mapped through it; a frame
      is free again, a bound device is gone and its five frames are free, and no other
      release frees anything. A right to reply is not released, nor is nothing. */
  lemma DropTakes(w: World, pool: set<nat>, p: nat, slot: nat)
    requires Secure(w, pool) && Lives(w, p)
    ensures var v := DropStep(w, p, slot); var held := Held(TableOf(w, p), slot);
      if held.None? || held.value.target.ReplyTo? then v == w
      else
        && Lives(v, p) && TableOf(v, p) == Slots(TableOf(w, p).caps[slot := None], TableOf(w, p).reserved)
        && LosesPages(AccessOf(w, p), AccessOf(v, p), slot)
        && v.avail == w.avail + FreedBy(w, held.value.target) && v.lost == w.lost
        && v.bound == (if held.value.target.BoundDevice? then w.bound - {held.value.target.dev} else w.bound)
  {
    hide Secure, Cut, Coherent, SameLoose, Recorded, PagesThrough, SendHome, LentTo, FreedBy;
    var held := Held(TableOf(w, p), slot);
    if held.Some? {
      var a := AccessOf(w, p);
      HolderFacts(w, pool, p);
      CutIsExact(a, slot, Without(a.table, slot));
      if held.value.target.BoundDevice? { NamedIsBound(w, pool, p, slot, held.value.target.dev); }
      FreedAre(w, held.value.target);
    }
  }

  lemma FreedAre(w: World, target: CapObject)
    ensures target.Frame? ==> FreedBy(w, target) == {target.addr / FRAME_SIZE}
    ensures target.BoundDevice? && target.dev in w.bound ==> FreedBy(w, target) == FramesOfDevice(w.bound[target.dev])
    ensures !target.Frame? && !target.BoundDevice? ==> FreedBy(w, target) == {}
  {
    if target.BoundDevice? && target.dev in w.bound {
      var b := w.bound[target.dev];
      assert DeviceFrames(b)[0] == b.desc && DeviceFrames(b)[1] == b.avail && DeviceFrames(b)[2] == b.used
             && DeviceFrames(b)[3] == b.buf && DeviceFrames(b)[4] == b.data;
      forall f ensures f in FreedBy(w, target) <==> f in FramesOfDevice(b) {
        assert b.desc in DeviceFrames(b) && b.avail in DeviceFrames(b) && b.used in DeviceFrames(b)
               && b.buf in DeviceFrames(b) && b.data in DeviceFrames(b);
      }
    }
  }

  // ----- ending -----

  /** Everybody else as a death leaves them: every grant and every mapping they had, and
      no claim by the dead process on what they hold. */
  ghost predicate Outlives(w: World, v: World, p: nat, q: nat) {
    && Lives(w, q) && Lives(v, q) && v.procs[q].value.boot == w.procs[q].value.boot
    && AccessOf(v, q) == AccessOf(w, q).(table := TableOf(v, q))
    && forall s: nat :: s < MAX_CAPS ==>
         && (TableOf(w, q).caps[s].Some? ==> W.SameGrant(TableOf(v, q).caps[s], TableOf(w, q).caps[s]))
         && !E.ClaimedBy(TableOf(v, q).caps[s], p)
  }

  /** A death removes its process, with every mapping it had, and nobody else. */
  lemma ExitRemoves(w: World, p: nat)
    requires Lives(w, p)
    ensures var v := ExitStep(w, p);
      && !Lives(v, p) && v.bound == w.bound && v.lost == w.lost && |v.procs| == |w.procs|
      && forall q: nat :: q != p && q < |w.procs| ==> if w.procs[q].None? then v.procs[q].None? else Outlives(w, v, p, q)
  {
    hide ReturnAll;
    ReturnAllAdds(w, p, 0);
    var m, v := ReturnAll(w, p, 0), ExitStep(w, p);
    forall q: nat | q != p && Lives(w, q) ensures Outlives(w, v, p, q) {
      assert Adds(w, m, q);
    }
  }

  /** What `q` had is as it was; it may hold more. */
  ghost predicate Adds(w: World, v: World, q: nat) {
    && Lives(w, q) && Lives(v, q) && v.procs[q].value.boot == w.procs[q].value.boot
    && AccessOf(v, q) == AccessOf(w, q).(table := TableOf(v, q))
    && forall s: nat :: s < MAX_CAPS && TableOf(w, q).caps[s].Some? ==> TableOf(v, q).caps[s] == TableOf(w, q).caps[s]
  }

  lemma {:induction false} ReturnAllAdds(w: World, p: nat, slot: nat)
    requires Lives(w, p) && slot <= MAX_CAPS
    ensures var v := ReturnAll(w, p, slot);
      && v.bound == w.bound && v.lost == w.lost && |v.procs| == |w.procs|
      && forall q: nat :: q < |w.procs| ==> if w.procs[q].None? then v.procs[q].None? else Adds(w, v, q)
    decreases MAX_CAPS - slot
  {
    if slot < MAX_CAPS {
      var c := TableOf(w, p).caps[slot];
      var v := if c.Some? then ReturnHome(w, p, c.value) else w;
      if c.Some? { ReturnHomeAdds(w, p, c.value); }
      hide ReturnHome;
      ReturnAllAdds(v, p, slot + 1);
    }
  }

  lemma ReturnHomeAdds(w: World, p: nat, cap: Capability)
    ensures var v := ReturnHome(w, p, cap);
      && v.bound == w.bound && v.lost == w.lost && |v.procs| == |w.procs|
      && (p < |w.procs| ==> v.procs[p] == w.procs[p])
      && forall q: nat :: q < |w.procs| ==> if w.procs[q].None? then v.procs[q].None? else Adds(w, v, q)
  {
    hide Install, LentTo, E.Gains, E.Packed;
    var back := ReclaimTarget(cap, p);
    if back.Some? && Lives(w, back.value.0.lender) {
      var (o, home) := back.value;
      var t := TableOf(w, o.lender);
      E.InstallGains(t, home);
      if Install(t, home).1.Some? { NotBoth(t, Install(t, home).0, Install(t, home).1.value, home); }
    }
  }

  // ----- beginning -----

  /** A spawn that goes through: the first empty slot holds a child with the frames its
      image took, nothing mapped in its window, and its budget, the way to answer and
      the gift in its table; the parent has the other end, and has lost the gift and
      exactly the pages mapped through it. */
  lemma SpawnLaunches(w: World, pool: set<nat>, p: nat, gift: Option<nat>, ep: M.Eid, frames: set<nat>) returns (c: nat)
    requires Secure(w, pool) && Lives(w, p) && frames <= w.avail && None in w.procs
    ensures var v := SpawnStep(w, p, gift, Some(ep), true, frames);
            var given := if gift.Some? then Held(TableOf(w, p), gift.value) else None;
            var left := if given.Some? then LentFrom(TableOf(w, p), gift.value) else TableOf(w, p);
      && c < |w.procs| && w.procs[c].None? && (forall k :: 0 <= k < c ==> w.procs[k].Some?)
      && v.avail == w.avail - frames && v.bound == w.bound && v.lost == w.lost && |v.procs| == |w.procs|
      && (forall q: nat :: q < |w.procs| && q != p && q != c ==> v.procs[q] == w.procs[q])
      && Lives(v, c) && v.procs[c].value.boot == frames && AccessOf(v, c).pages == map[]
      && E.ChildHolds(TableOf(v, c), ep, given, Origin(p, if gift.Some? then gift.value else 0))
      && Lives(v, p) && (if given.Some? then LosesPages(AccessOf(w, p), AccessOf(v, p), gift.value) else AccessOf(v, p).pages == AccessOf(w, p).pages)
      && (if E.Packed(left) then TableOf(v, p) == left
          else exists s :: E.Gains(left, TableOf(v, p), s, Capability(EndpointCap(ep), {MayRecv}, None)))
  {
    hide Secure, Install, Cut, LentFrom, Coherent, SameLoose, Recorded, PagesThrough, E.Packed, E.Gains;
    c := FirstEmpty(w.procs).value;
    var a := AccessOf(w, p);
    var given := if gift.Some? then Held(a.table, gift.value) else None;
    var left := if given.Some? then LentFrom(a.table, gift.value) else a.table;
    var recv := Capability(EndpointCap(ep), {MayRecv}, None);
    E.InstallGains(left, recv);
    var s := Install(left, recv).1;
    var v := SpawnStep(w, p, gift, Some(ep), true, frames);
    assert !E.Packed(left) ==> s.Some? && E.Gains(left, Install(left, recv).0, s.value, recv);
    if s.Some? { NotBoth(left, Install(left, recv).0, s.value, recv); }
    if given.Some? {
      HolderFacts(w, pool, p);
      LentCaps(a.table, gift.value);
      CutIsExact(a, gift.value, left);
      forall x: nat { SameRecords(AccessOf(v, p), Cut(a.(table := left), gift.value, given.value.target), gift.value, x); }
    }
    assert TableOf(v, p) == Install(left, recv).0;
  }
}
