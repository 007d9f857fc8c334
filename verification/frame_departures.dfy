/** The steps that take a capability away from a process: transfer, release, spawn and
    death. Each keeps one owner per frame and no access without authority, unless it
    takes a bound device from a process that still has it mapped. */
module FrameDepartures {
  import opened Prelude
  import opened Capabilities
  import opened FrameAllocator
  import opened WaitQueues
  import opened IpcSafety
  import M = IpcModel
  import S = IpcSteps
  import opened Loader
  import opened UserMaps
  import opened FrameWorld
  import opened FrameOwnership
  import opened FrameSteps

  /** A process left without what one slot named: tethered still, exactly unless it has
      that device mapped. */
  lemma LeavingTether(w: World, pool: set<nat>, p: nat, slot: nat, b: Access, now: map<nat, Binding>)
    requires Secure(w, pool) && Lives(w, p) && slot < MAX_CAPS && TableOf(w, p).caps[slot].Some?
    requires SameLoose(AccessOf(w, p), b)
    requires forall s: nat :: s < MAX_CAPS && s != slot ==> Solid(b.table.caps[s]) == Solid(TableOf(w, p).caps[s])
    requires Solid(b.table.caps[slot]).None?
    requires var c := TableOf(w, p).caps[slot].value.target; now == if c.BoundDevice? && now != w.bound then w.bound - {c.dev} else w.bound
    ensures Tethered(b, now) <==> !StillReached(w, p, slot)
  {
    hide Loose, SameLoose;
    var a := AccessOf(w, p);
    var c := TableOf(w, p).caps[slot].value;
    HolderFacts(w, pool, p);
    SolidDecides(b.table.caps[slot], None);
    if c.target.BoundDevice? {
      TetherCut(w, pool, p, slot, c.target.dev, b, now);
    } else {
      forall s: nat | s < MAX_CAPS && DeviceOf(a.table.caps[s]).Some? ensures HoldsDevice(b.table, DeviceOf(a.table.caps[s]).value) {
        SolidDecides(b.table.caps[s], a.table.caps[s]);
        assert DeviceOf(b.table.caps[s]) == DeviceOf(a.table.caps[s]);
      }
      TetherKept(a, b, w.bound);
    }
  }

  /** The slot names a bound device that its holder has mapped. */
  ghost predicate StillReached(w: World, p: nat, slot: nat) {
    var c := CapIn(w, p, slot);
    c.Some? && c.value.target.BoundDevice? && MapsDevice(w, p, c.value.target.dev)
  }

  lemma LentKeepsSolid(cap: Capability, source: Origin, dest: nat)
    ensures Solid(Some(LentTo(cap, source, dest))) == Solid(Some(cap))
  {
  }

  // ----- transfer -----

  lemma GivenAcross(w: World, pool: set<nat>, p: nat, slot: nat, q: nat)
    requires Secure(w, pool) && Lives(w, p) && Lives(w, q) && p != q
    requires slot < MAX_CAPS && TableOf(w, p).caps[slot].Some?
    requires var cap := TableOf(w, p).caps[slot].value;
             InstallHome(TableOf(w, q), LentTo(cap, Origin(p, slot), q), cap.origin, q).1.Some?
    ensures Secure(GiveStep(w, p, slot, q), pool) <==> !StillReached(w, p, slot)
  {
    hide Install, InstallHome, Coherent, Cut, LentTo, LentFrom, Apart;
    hide Ledger, Devices, Tethered, Ties, SameLoose, Sane, StillReached, Solid;
    var h, g := w.procs[p].value, w.procs[q].value;
    var cap := TableOf(w, p).caps[slot].value;
    var lent := LentTo(cap, Origin(p, slot), q);
    HolderFacts(w, pool, p);
    HolderFacts(w, pool, q);
    LentLeaves(h, slot, pool);
    LentKeepsSolid(cap, Origin(p, slot), q);
    HomecomingArrives(TableOf(w, q), lent, cap.origin, q);
    var v := GiveStep(w, p, slot, q);
    var k := InstallHome(TableOf(w, q), lent, cap.origin, q).1.value;
    ArrivedSane(g, TableOf(v, q), lent, pool);
    TetherKept(g.access, AccessOf(v, q), w.bound);
    assert Solid(None).None? by { NoneIsHollow(); }
    assert SolidMoved(w, v, p, slot, q, k);
    SlotMoves(w, v, pool, p, slot, q, k);
    LeavingTether(w, pool, p, slot, AccessOf(v, p), w.bound);
    if Tethered(AccessOf(v, p), w.bound) {
      TwoSecure(w, v, p, q, pool);
    }
  }

  lemma NoneIsHollow()
    ensures Solid(None).None?
  {
  }

  /** Refused by the receiver: a frame or a device always finds room again with the
      giver, so none is ever lost; a reclaimable capability may be, which moves no
      frame. */
  lemma GivenBack(w: World, pool: set<nat>, p: nat, slot: nat, q: nat)
    requires Secure(w, pool) && Lives(w, p) && Lives(w, q) && p != q
    requires slot < MAX_CAPS && TableOf(w, p).caps[slot].Some?
    requires var cap := TableOf(w, p).caps[slot].value;
             InstallHome(TableOf(w, q), LentTo(cap, Origin(p, slot), q), cap.origin, q).1.None?
    ensures Secure(GiveStep(w, p, slot, q), pool)
  {
    hide Install, InstallHome, Coherent, Cut, LentTo, LentFrom, Apart, Ledger, Devices, Tethered, Ties, SameLoose, Sane, Solid;
    var h := w.procs[p].value;
    var cap := TableOf(w, p).caps[slot].value;
    HolderFacts(w, pool, p);
    LentLeaves(h, slot, pool);
    var t := LentFrom(h.access.table, slot);
    var left := h.(access := Cut(h.access.(table := t), slot, cap.target));
    InstallArrives(t, cap);
    var (back, landing) := Install(t, cap);
    var v := GiveStep(w, p, slot, q);
    ArrivedSane(left, back, cap, pool);
    assert SameLoose(h.access, AccessOf(v, p)) by { LooseThroughTable(h.access, left.access, back); }
    assert Solid(None).None? by { NoneIsHollow(); }
    if landing.Some? {
      assert back.caps == h.access.table.caps[slot := None][landing.value := Some(cap)];
      ReturningTies(h.access, AccessOf(v, p), slot, landing.value);
      assert SolidMoved(w, v, p, slot, p, landing.value);
      SlotMoves(w, v, pool, p, slot, p, landing.value);
    } else {
      NoRoomNothingSolid(t, slot, cap);
      LeavingTies(h.access, AccessOf(v, p), slot);
      assert SolidMoved(w, v, p, slot, p, slot);
      SlotMoves(w, v, pool, p, slot, p, slot);
    }
    TetherKept(h.access, AccessOf(v, p), w.bound);
    OneSecure(w, v, p, pool);
  }

  lemma LooseThroughTable(a: Access, b: Access, t: Table)
    requires SameLoose(a, b)
    ensures SameLoose(a, b.(table := t))
  {
    forall s: nat, x: nat ensures Recorded(b.(table := t), s, x) == Recorded(b, s, x) { SameRecords(b, b.(table := t), s, x); }
    forall x: nat ensures Loose(b.(table := t), x) == Loose(b, x) { }
  }

  lemma NoRoomNothingSolid(t: Table, slot: nat, cap: Capability)
    requires slot < MAX_CAPS && Install(t, cap).1.None? && (!LendReserves(cap) ==> Available(t, slot))
    ensures Solid(Some(cap)).None? && DeviceOf(Some(cap)).None?
  {
  }

  /** The transfer finds room with the receiver. */
  predicate GiftLands(w: World, p: nat, slot: nat, q: nat) {
    && Lives(w, p) && Lives(w, q) && Held(TableOf(w, p), slot).Some?
    && var cap := Held(TableOf(w, p), slot).value;
       InstallHome(TableOf(w, q), LentTo(cap, Origin(p, slot), q), cap.origin, q).1.Some?
  }

  lemma GiveKeepsExactly(w: World, pool: set<nat>, p: nat, slot: nat, q: nat)
    requires Secure(w, pool) && Lives(w, p) && Lives(w, q) && p != q
    ensures Secure(GiveStep(w, p, slot, q), pool) <==> !(GiftLands(w, p, slot, q) && StillReached(w, p, slot))
  {
    hide Secure, InstallHome, StillReached;
    if slot < MAX_CAPS && TableOf(w, p).caps[slot].Some? {
      if GiftLands(w, p, slot, q) {
        GivenAcross(w, pool, p, slot, q);
      } else {
        GivenBack(w, pool, p, slot, q);
      }
    }
  }

  // ----- release -----

  /** A released frame is free again, and no recorded page of it is mapped. */
  lemma FrameDropped(w: World, pool: set<nat>, p: nat, slot: nat)
    requires Secure(w, pool) && Lives(w, p) && slot < MAX_CAPS && TableOf(w, p).caps[slot].Some?
    requires TableOf(w, p).caps[slot].value.target.Frame?
    ensures Secure(DropStep(w, p, slot), pool)
    ensures Keeps(DropStep(w, p, slot), Unused, TableOf(w, p).caps[slot].value.target.addr / FRAME_SIZE)
  {
    hide Coherent, RevokeStep, Tidy, Sane, Tethered, Ties, SameLoose, Devices, Ledger;
    var h := w.procs[p].value;
    HolderFacts(w, pool, p);
    RevokedLeaves(h, slot, pool);
    var v := DropStep(w, p, slot);
    var m := Pass(InSlot(p, slot), Unused);
    forall l, f: nat | Keeps(v, l, f) ensures CameFrom(w, m, l, f) {
      var k := if l == Unused && f !in w.avail then InSlot(p, slot) else l;
      assert Keeps(w, k, f) && MovedTo(m, k, f) == l;
    }
    LedgerFollows(w, v, m, pool);
    DevicesSame(w, v, pool);
    LeavingTies(h.access, AccessOf(v, p), slot);
    TetherKept(h.access, AccessOf(v, p), w.bound);
    OneSecure(w, v, p, pool);
  }

  lemma FewerDevices(w: World, v: World, pool: set<nat>, p: nat, slot: nat, dev: nat)
    requires Devices(w, pool) && v.bound == w.bound - {dev} && NamesDevice(CapIn(w, p, slot), dev)
    requires CapIn(v, p, slot).None? && forall x: nat, y: nat :: (x, y) != (p, slot) ==> CapIn(v, x, y) == CapIn(w, x, y)
    ensures Devices(v, pool)
  {
    hide BindingOk, CapIn;
  }

  /** Losing a device tethers nobody else any less: only one process could name it. */
  lemma OthersTethered(w: World, pool: set<nat>, p: nat, slot: nat, dev: nat, q: nat)
    requires Secure(w, pool) && NamesDevice(CapIn(w, p, slot), dev) && Lives(w, q) && q != p
    ensures Tethered(AccessOf(w, q), w.bound - {dev})
  {
    hide Loose;
    var a := AccessOf(w, q);
    forall x: nat | Loose(a, x) ensures Tied(a, w.bound - {dev}, x) {
      assert Tied(a, w.bound, x);
      var s: nat :| TiedBy(a, w.bound, s, x);
      assert NamesDevice(CapIn(w, q, s), DeviceOf(a.table.caps[s]).value);
      assert TiedBy(a, w.bound - {dev}, s, x);
    }
  }

  lemma DeviceFreed(w: World, v: World, pool: set<nat>, dev: nat)
    requires Ledger(w, pool) && Devices(w, pool) && dev in w.bound
    requires v.avail == w.avail + FramesOfDevice(w.bound[dev]) && v.bound == w.bound - {dev} && v.lost == w.lost
    requires forall k: Keeper, f: nat :: k.Loaded? || k.InSlot? ==> Keeps(v, k, f) == Keeps(w, k, f)
    ensures Ledger(v, pool)
  {
    hide CapIn, DeviceFrames, FramesOfDevice;
    var m := Pass(Device(dev), Unused);
    assert BindingOk(w.bound[dev], pool);
    forall f: nat ensures f * FRAME_SIZE in DeviceFrames(w.bound[dev]) <==> f in FramesOfDevice(w.bound[dev]) {
      FrameNumberOf(w.bound[dev], pool, f);
    }
    forall l, f: nat | Keeps(v, l, f) ensures CameFrom(w, m, l, f) {
      var k := if l == Unused && f !in w.avail then Device(dev) else l;
      assert Keeps(w, k, f) && MovedTo(m, k, f) == l;
    }
    LedgerFollows(w, v, m, pool);
  }

  lemma DeviceDropped(w: World, pool: set<nat>, p: nat, slot: nat)
    requires Secure(w, pool) && Lives(w, p) && slot < MAX_CAPS && TableOf(w, p).caps[slot].Some?
    requires TableOf(w, p).caps[slot].value.target.BoundDevice?
    ensures Secure(DropStep(w, p, slot), pool) <==> !StillReached(w, p, slot)
  {
    hide Coherent, RevokeStep, Tidy, Sane, Tethered, SameLoose, Devices, Ledger, FramesOfDevice, StillReached;
    var h := w.procs[p].value;
    var dev := h.access.table.caps[slot].value.target.dev;
    HolderFacts(w, pool, p);
    assert dev in w.bound by { NamedIsBound(w, pool, p, slot, dev); }
    RevokedLeaves(h, slot, pool);
    var v := DropStep(w, p, slot);
    forall k: Keeper, f: nat | k.Loaded? || k.InSlot? ensures Keeps(v, k, f) == Keeps(w, k, f) { }
    DeviceFreed(w, v, pool, dev);
    FewerDevices(w, v, pool, p, slot, dev);
    LeavingTether(w, pool, p, slot, AccessOf(v, p), v.bound);
    forall q: nat | Lives(v, q) && q != p ensures Sane(v.procs[q].value, pool) && Tethered(AccessOf(v, q), v.bound) {
      HolderFacts(w, pool, q);
      OthersTethered(w, pool, p, slot, dev, q);
    }
  }

  lemma NamedIsBound(w: World, pool: set<nat>, p: nat, slot: nat, dev: nat)
    requires Secure(w, pool) && NamesDevice(CapIn(w, p, slot), dev)
    ensures dev in w.bound
  {
  }

  lemma RevokedKeeps(w: World, pool: set<nat>, p: nat, slot: nat)
    requires Secure(w, pool) && Lives(w, p) && slot < MAX_CAPS && TableOf(w, p).caps[slot].Some?
    requires Solid(TableOf(w, p).caps[slot]).None?
    ensures Secure(RevokedAt(w, p, slot), pool) && Apart(TableOf(w, p).caps[slot].value.target, pool)
  {
    hide Coherent, RevokeStep, Tidy, Sane, Tethered, Ties, SameLoose, Devices, Ledger;
    HolderFacts(w, pool, p);
    RevokedLeaves(w.procs[p].value, slot, pool);
    var a := AccessOf(RevokedAt(w, p, slot), p);
    LeavingTies(AccessOf(w, p), a, slot);
    QuietStep(w, pool, p, a);
  }

  lemma HomeKeeps(w: World, pool: set<nat>, p: nat, cap: Capability)
    requires Secure(w, pool) && Apart(cap.target, pool)
    ensures var v := ReturnHome(w, p, cap);
            && Secure(v, pool) && v.avail == w.avail && v.bound == w.bound && v.lost == w.lost
            && |v.procs| == |w.procs| && (p < |w.procs| ==> v.procs[p] == w.procs[p])
  {
    hide Coherent, Tidy, SendHome, Sane, Tethered, Ties, Devices, Ledger;
    var back := ReclaimTarget(cap, p);
    if back.Some? && back.value.0.lender != p && Lives(w, back.value.0.lender) {
      var (o, home) := back.value;
      HolderFacts(w, pool, o.lender);
      var a := AccessOf(ReturnHome(w, p, cap), o.lender);
      SendHomeArrives(TableOf(w, o.lender), o.home, home);
      assert home.target == cap.target && Solid(Some(home)).None?;
      ArrivedSane(w.procs[o.lender].value, a.table, home, pool);
      QuietStep(w, pool, o.lender, a);
    }
  }

  /** Releasing a capability keeps the frames owned and the access authorised, exactly
      unless it is a bound device the holder still has mapped. */
  lemma DropKeepsExactly(w: World, pool: set<nat>, p: nat, slot: nat)
    requires Secure(w, pool) && Lives(w, p)
    ensures Secure(DropStep(w, p, slot), pool) <==> !StillReached(w, p, slot)
  {
    hide Secure, RevokeStep, ReturnHome, MapsDevice;
    if slot < MAX_CAPS && TableOf(w, p).caps[slot].Some? {
      var cap := TableOf(w, p).caps[slot].value;
      if cap.target.Frame? {
        FrameDropped(w, pool, p, slot);
      } else if cap.target.BoundDevice? {
        DeviceDropped(w, pool, p, slot);
      } else {
        RevokedKeeps(w, pool, p, slot);
        HomeKeeps(RevokedAt(w, p, slot), pool, p, cap);
      }
    }
  }

  // ----- death -----

  lemma {:induction false} ReturnAllKeeps(w: World, pool: set<nat>, p: nat, slot: nat)
    requires Secure(w, pool) && Lives(w, p) && slot <= MAX_CAPS
    ensures var v := ReturnAll(w, p, slot);
            && Secure(v, pool) && v.avail == w.avail && v.bound == w.bound && v.lost == w.lost
            && |v.procs| == |w.procs| && v.procs[p] == w.procs[p]
    decreases MAX_CAPS - slot
  {
    hide ReturnHome, Coherent, Secure;
    if slot < MAX_CAPS {
      var c := TableOf(w, p).caps[slot];
      if c.Some? {
        HolderFacts(w, pool, p);
        HomeKeeps(w, pool, p, c.value);
        ReturnAllKeeps(ReturnHome(w, p, c.value), pool, p, slot + 1);
      } else {
        ReturnAllKeeps(w, pool, p, slot + 1);
      }
    }
  }

  lemma TableFramesAre(t: Table, pool: set<nat>, f: nat)
    requires CapsApart(t, pool)
    ensures f in TableFrames(t) <==> exists s :: 0 <= s < MAX_CAPS && NamesFrame(t.caps[s], f)
  {
    if f in TableFrames(t) {
      var s :| 0 <= s < MAX_CAPS && t.caps[s].Some? && t.caps[s].value.target.Frame? && t.caps[s].value.target.addr / FRAME_SIZE == f;
      assert Apart(t.caps[s].value.target, pool);
      assert NamesFrame(t.caps[s], f);
    }
  }

  lemma ClearedSane(h: Holder, p: nat, pool: set<nat>)
    requires Sane(h, pool)
    ensures var t := ClaimsCleared(h.access.table, p);
            && Sane(h.(access := h.access.(table := t)), pool) && Ties(h.access, h.access.(table := t))
            && forall s: nat :: s < MAX_CAPS ==> Solid(t.caps[s]) == Solid(h.access.table.caps[s])
  {
    hide Coherent, SameLoose;
    var t := ClaimsCleared(h.access.table, p);
    ArrivalKeeps(h.access, t);
    forall s: nat | s < MAX_CAPS && DeviceOf(h.access.table.caps[s]).Some? ensures HoldsDevice(t, DeviceOf(h.access.table.caps[s]).value) {
      assert DeviceOf(t.caps[s]) == DeviceOf(h.access.table.caps[s]);
    }
  }

  /** Death frees every frame the process kept, and no other. */
  lemma ExitKeeps(w: World, pool: set<nat>, p: nat)
    requires Secure(w, pool) && Lives(w, p)
    ensures Secure(ExitStep(w, p), pool)
    ensures forall f: nat :: Keeps(ExitStep(w, p), Unused, f) <==>
      Keeps(w, Unused, f) || Keeps(w, Loaded(p), f) || exists s :: Keeps(w, InSlot(p, s), f)
  {
    hide ReturnAll, Coherent, Secure;
    ReturnAllKeeps(w, pool, p, 0);
    var v := ReturnAll(w, p, 0);
    ExitFrees(w, v, pool, p);
    ExitFollows(w, v, pool, p);
  }

  lemma ExitFrees(w: World, v: World, pool: set<nat>, p: nat)
    requires Secure(w, pool) && Lives(w, p) && v == ReturnAll(w, p, 0)
    ensures forall f: nat :: f in ExitStep(w, p).avail <==>
      Keeps(w, Unused, f) || Keeps(w, Loaded(p), f) || exists s :: Keeps(w, InSlot(p, s), f)
  {
    hide ReturnAll, Coherent, TableFrames, Sane;
    HolderFacts(w, pool, p);
    forall f: nat
      ensures f in ExitStep(w, p).avail <==> Keeps(w, Unused, f) || Keeps(w, Loaded(p), f) || exists s :: Keeps(w, InSlot(p, s), f)
    {
      TableFramesAre(TableOf(w, p), pool, f);
      if s :| 0 <= s < MAX_CAPS && NamesFrame(TableOf(w, p).caps[s], f) { assert Keeps(w, InSlot(p, s), f); }
    }
  }

  lemma SurvivorIs(w: World, v: World, pool: set<nat>, p: nat, q: nat)
    requires Lives(w, p) && v == ReturnAll(w, p, 0) && Secure(v, pool) && |v.procs| == |w.procs|
    requires Lives(ExitStep(w, p), q)
    ensures q != p && Lives(v, q)
    ensures ExitStep(w, p).procs[q].value.boot == v.procs[q].value.boot
    ensures Sane(ExitStep(w, p).procs[q].value, pool) && Tethered(AccessOf(ExitStep(w, p), q), v.bound)
    ensures forall s: nat :: Solid(CapIn(ExitStep(w, p), q, s)) == Solid(CapIn(v, q, s))
  {
    hide ReturnAll, Coherent, ClaimsCleared, Sane, Tethered, Ties, Solid;
    HolderFacts(v, pool, q);
    ClearedSane(v.procs[q].value, p, pool);
    TetherKept(AccessOf(v, q), AccessOf(ExitStep(w, p), q), v.bound);
  }

  lemma ExitFollows(w: World, v: World, pool: set<nat>, p: nat)
    requires Secure(w, pool) && Lives(w, p) && v == ReturnAll(w, p, 0)
    requires Secure(v, pool) && v.avail == w.avail && v.bound == w.bound && v.lost == w.lost
    requires |v.procs| == |w.procs| && v.procs[p] == w.procs[p]
    requires forall f: nat :: f in ExitStep(w, p).avail <==>
      Keeps(w, Unused, f) || Keeps(w, Loaded(p), f) || exists s :: Keeps(w, InSlot(p, s), f)
    ensures Secure(ExitStep(w, p), pool)
  {
    hide ReturnAll, Coherent, ClaimsCleared, TableFrames, Sane, Tethered, Solid, NamesFrame;
    var u := ExitStep(w, p);
    forall q: nat, s: nat
      ensures Solid(CapIn(u, q, s)) == if q == p then None else Solid(CapIn(v, q, s))
    {
      NoneIsHollow();
      if Lives(u, q) { SurvivorIs(w, v, pool, p, q); }
    }
    ExitLedger(w, v, pool, p);
    ExitDevices(v, u, pool, p);
    forall q: nat | Lives(u, q) ensures Sane(u.procs[q].value, pool) && Tethered(AccessOf(u, q), u.bound) {
      SurvivorIs(w, v, pool, p, q);
    }
  }

  lemma ExitDevices(v: World, u: World, pool: set<nat>, p: nat)
    requires Devices(v, pool) && u.bound == v.bound
    requires forall q: nat, s: nat :: Solid(CapIn(u, q, s)) == if q == p then None else Solid(CapIn(v, q, s))
    ensures Devices(u, pool)
  {
    hide Solid, CapIn, NamesDevice, BindingOk, DoorbellsDiffer;
    forall q: nat, s: nat, d: nat | NamesDevice(CapIn(u, q, s), d) ensures NamesDevice(CapIn(v, q, s), d) {
      NamesAreSolid(CapIn(u, q, s), d);
      SolidDecides(CapIn(u, q, s), CapIn(v, q, s));
    }
  }

  lemma ExitLedger(w: World, v: World, pool: set<nat>, p: nat)
    requires Lives(w, p) && v == ReturnAll(w, p, 0) && Ledger(v, pool)
    requires v.avail == w.avail && v.bound == w.bound && v.lost == w.lost && |v.procs| == |w.procs| && v.procs[p] == w.procs[p]
    requires forall q: nat, s: nat :: Solid(CapIn(ExitStep(w, p), q, s)) == if q == p then None else Solid(CapIn(v, q, s))
    requires forall f: nat :: f in ExitStep(w, p).avail <==>
      Keeps(w, Unused, f) || Keeps(w, Loaded(p), f) || exists s :: Keeps(w, InSlot(p, s), f)
    ensures Ledger(ExitStep(w, p), pool)
  {
    hide ReturnAll, ClaimsCleared, TableFrames, Solid, NamesFrame, DeviceFrames;
    var u := ExitStep(w, p);
    var m := End(p);
    forall q: nat, s: nat, f: nat ensures NamesFrame(CapIn(u, q, s), f) <==> q != p && NamesFrame(CapIn(v, q, s), f) {
      NamesAreSolid(CapIn(u, q, s), f);
      if q != p { SolidDecides(CapIn(u, q, s), CapIn(v, q, s)); }
    }
    forall l, f: nat | Keeps(u, l, f) ensures CameFrom(v, m, l, f) {
      if l == Unused {
        if s :| Keeps(w, InSlot(p, s), f) {
          assert Keeps(v, InSlot(p, s), f) && MovedTo(m, InSlot(p, s), f) == l;
        } else if Keeps(w, Loaded(p), f) {
          assert Keeps(v, Loaded(p), f) && MovedTo(m, Loaded(p), f) == l;
        } else {
          assert Keeps(v, Unused, f) && MovedTo(m, Unused, f) == l;
        }
      } else {
        assert Keeps(v, l, f) && MovedTo(m, l, f) == l;
      }
    }
    forall k, f: nat | Keeps(v, k, f) ensures Keeps(u, MovedTo(m, k, f), f) {
      if k == Loaded(p) || (k.InSlot? && k.p == p) { assert Keeps(w, k, f); }
    }
    LedgerFollows(v, u, m, pool);
  }

  // ----- spawn -----

  /** A failed spawn: the capability is back with the caller, its mappings are not. */
  lemma TakenBackKeeps(w: World, pool: set<nat>, p: nat, slot: nat)
    requires Secure(w, pool) && Lives(w, p) && Held(TableOf(w, p), slot).Some?
    ensures var mine := GivenAway(w, p, slot);
            Secure(WithAccess(w, p, mine.(table := TakenBack(mine.table, slot, TableOf(w, p).caps[slot].value))), pool)
  {
    hide Coherent, Cut, LentFrom, TakenBack, Apart, Ledger, Devices, Tethered, Ties, SameLoose, Sane, Solid, Tidy;
    var h := w.procs[p].value;
    var cap := h.access.table.caps[slot].value;
    HolderFacts(w, pool, p);
    LentLeaves(h, slot, pool);
    var t := LentFrom(h.access.table, slot);
    var left := h.(access := GivenAway(w, p, slot));
    var back := TakenBack(t, slot, cap);
    var k := S.TakenBackWhere(h.access.table, slot);
    var a := left.access.(table := back);
    assert Lands(t, back, k, cap) by { BackLands(h.access.table, slot, k); }
    ArrivedSane(left, back, cap, pool);
    LooseThroughTable(h.access, left.access, back);
    ReturningTies(h.access, a, slot, k);
    var v := WithAccess(w, p, a);
    assert Solid(None).None? by { NoneIsHollow(); }
    assert SolidMoved(w, v, p, slot, p, k) by { ReturnMovesSolid(w, v, p, slot, k); }
    SlotMoves(w, v, pool, p, slot, p, k);
    TetherKept(h.access, a, w.bound);
    OneSecure(w, v, p, pool);
  }

  lemma BackLands(t: Table, slot: nat, k: nat)
    requires slot < MAX_CAPS && t.caps[slot].Some? && k < MAX_CAPS && (k == slot || t.caps[k].None?)
    requires var back := TakenBack(LentFrom(t, slot), slot, t.caps[slot].value); back.caps == t.caps[slot := None][k := t.caps[slot]]
    ensures Lands(LentFrom(t, slot), TakenBack(LentFrom(t, slot), slot, t.caps[slot].value), k, t.caps[slot].value)
  {
    hide TakenBack;
  }

  lemma ReturnMovesSolid(w: World, v: World, p: nat, slot: nat, k: nat)
    requires Lives(w, p) && Lives(v, p) && slot < MAX_CAPS && k < MAX_CAPS && (k == slot || TableOf(w, p).caps[k].None?)
    requires TableOf(v, p).caps == TableOf(w, p).caps[slot := None][k := TableOf(w, p).caps[slot]]
    requires forall q: nat :: q != p ==> Lives(v, q) == Lives(w, q) && (Lives(w, q) ==> v.procs[q] == w.procs[q])
    ensures SolidMoved(w, v, p, slot, p, k)
  {
  }

  /** Frames a failed load took and did not record. */
  lemma LossKeeps(w: World, pool: set<nat>, frames: set<nat>)
    requires Secure(w, pool) && frames <= w.avail
    ensures Secure(w.(avail := w.avail - frames, lost := w.lost + frames), pool)
  {
    hide Devices, Ledger, Sane, Tethered;
    var v := w.(avail := w.avail - frames, lost := w.lost + frames);
    FramesTaken(w, v, pool, frames, Lost);
    DevicesSame(w, v, pool);
  }

  function Launch(w: World, p: nat, c: nat, ep: nat, frames: set<nat>): World
    requires c < |w.procs|
  {
    w.(procs := w.procs[c := Some(Holder(NoRecords(ChildTable(ep, None)), frames))], avail := w.avail - frames)
  }

  lemma LaunchKeeps(w: World, pool: set<nat>, p: nat, c: nat, ep: nat, frames: set<nat>)
    requires Secure(w, pool) && Lives(w, p) && c < |w.procs| && w.procs[c].None? && frames <= w.avail
    ensures c != p && Secure(Launch(w, p, c, ep, frames), pool)
  {
    hide Secure;
    HousedKeeps(w, pool, c, ChildTable(ep, None), frames);
  }

  lemma GiftKeepsExactly(w: World, pool: set<nat>, p: nat, slot: nat, c: nat, ep: nat, frames: set<nat>)
    requires Secure(w, pool) && Lives(w, p) && Held(TableOf(w, p), slot).Some?
    requires c < |w.procs| && w.procs[c].None? && frames <= w.avail
    ensures var mine := GivenAway(w, p, slot);
            var kept := mine.(table := Install(mine.table, ResultCap(ep, MayRecv)).0);
            var lent := M.LentToChild(TableOf(w, p).caps[slot].value, Origin(p, slot));
            var v := w.(procs := w.procs[p := Some(w.procs[p].value.(access := kept))]
                                      [c := Some(Holder(NoRecords(ChildTable(ep, Some(lent))), frames))],
                        avail := w.avail - frames);
            Secure(v, pool) <==> !StillReached(w, p, slot)
  {
    hide Install, Coherent, Cut, LentFrom, Ledger, Devices, Tethered, Ties, SameLoose, Sane, StillReached, Solid, Tidy, ChildTable;
    var h := w.procs[p].value;
    var cap := h.access.table.caps[slot].value;
    var recv := ResultCap(ep, MayRecv);
    var lent := M.LentToChild(cap, Origin(p, slot));
    var mine := GivenAway(w, p, slot);
    var kept := mine.(table := Install(mine.table, recv).0);
    HolderFacts(w, pool, p);
    LaunchKeeps(w, pool, p, c, ep, frames);
    var u := Launch(w, p, c, ep, frames);
    HolderFacts(u, pool, c);
    var v := u.(procs := w.procs[p := Some(h.(access := kept))][c := Some(Holder(NoRecords(ChildTable(ep, Some(lent))), frames))]);
    LentLeaves(h, slot, pool);
    InstallArrives(mine.table, recv);
    ArrivedSane(h.(access := mine), kept.table, recv, pool);
    LooseThroughTable(h.access, mine, kept.table);
    GiftTable(ep, lent);
    ArrivedSane(u.procs[c].value, TableOf(v, c), lent, pool);
    TetherKept(AccessOf(u, c), AccessOf(v, c), u.bound);
    GiftSolids(u, v, p, slot, c, recv);
    SlotMoves(u, v, pool, p, slot, c, 2);
    assert StillReached(u, p, slot) == StillReached(w, p, slot) by { SameReach(w, u, p, slot); }
    LeavingTether(u, pool, p, slot, kept, u.bound);
    if Tethered(kept, u.bound) {
      TwoSecure(u, v, p, c, pool);
    }
  }

  lemma GiftTable(ep: nat, lent: Capability)
    ensures Tidy(ChildTable(ep, None)) && Tidy(ChildTable(ep, Some(lent)))
    ensures Lands(ChildTable(ep, None), ChildTable(ep, Some(lent)), 2, lent)
    ensures Arrived(ChildTable(ep, None), ChildTable(ep, Some(lent)), lent)
  {
    assert Lands(ChildTable(ep, None), ChildTable(ep, Some(lent)), 2, lent);
  }

  lemma SameReach(w: World, u: World, p: nat, slot: nat)
    requires Lives(w, p) && Lives(u, p) && u.procs[p] == w.procs[p] && u.bound == w.bound
    ensures StillReached(u, p, slot) == StillReached(w, p, slot)
  {
  }

  lemma GiftSolids(u: World, v: World, p: nat, slot: nat, c: nat, recv: Capability)
    requires Lives(u, p) && Lives(v, p) && Lives(u, c) && Lives(v, c) && p != c && slot < MAX_CAPS && TableOf(u, p).caps[slot].Some?
    requires recv.target.EndpointCap? && Arrived(LentFrom(TableOf(u, p), slot), TableOf(v, p), recv)
    requires var cap := TableOf(u, p).caps[slot].value; Lands(TableOf(u, c), TableOf(v, c), 2, M.LentToChild(cap, Origin(p, slot)))
    requires forall q: nat :: q != p && q != c ==> Lives(v, q) == Lives(u, q) && (Lives(u, q) ==> v.procs[q] == u.procs[q])
    ensures SolidMoved(u, v, p, slot, c, 2)
    ensures forall s: nat :: s < MAX_CAPS && s != slot ==> Solid(TableOf(v, p).caps[s]) == Solid(TableOf(u, p).caps[s])
    ensures Solid(TableOf(v, p).caps[slot]).None?
  {
  }

  /** The spawn has an endpoint, a process slot, an image and the frames for it. */
  predicate Launches(w: World, ep: Option<nat>, loads: bool, frames: set<nat>) {
    ep.Some? && frames <= w.avail && FirstEmpty(w.procs).Some? && loads
  }

  lemma SpawnKeepsExactly(w: World, pool: set<nat>, p: nat, gift: Option<nat>, ep: Option<nat>, loads: bool, frames: set<nat>)
    requires Secure(w, pool) && Lives(w, p)
    ensures Secure(SpawnStep(w, p, gift, ep, loads, frames), pool)
       <==> !(Launches(w, ep, loads, frames) && gift.Some? && StillReached(w, p, gift.value))
  {
    hide Secure, Install, TakenBack, LentFrom, Cut, StillReached, M.LentToChild, ChildTable;
    if ep.Some? && frames <= w.avail {
      var taken := gift.Some? && Held(TableOf(w, p), gift.value).Some?;
      if Launches(w, ep, loads, frames) {
        var c := FirstEmpty(w.procs).value;
        if taken {
          GiftKeepsExactly(w, pool, p, gift.value, c, ep.value, frames);
        } else {
          NothingReached(w, p, gift);
          PlainLaunch(w, pool, p, c, ep.value, frames);
        }
      } else {
        if taken { TakenBackKeeps(w, pool, p, gift.value); } else { assert WithAccess(w, p, AccessOf(w, p)) == w; }
        var back := if taken then var mine := GivenAway(w, p, gift.value); mine.(table := TakenBack(mine.table, gift.value, TableOf(w, p).caps[gift.value].value))
                    else AccessOf(w, p);
        if FirstEmpty(w.procs).Some? { LossKeeps(WithAccess(w, p, back), pool, frames); }
      }
    }
  }

  lemma NothingReached(w: World, p: nat, gift: Option<nat>)
    requires Lives(w, p) && (gift.Some? ==> Held(TableOf(w, p), gift.value).None?)
    ensures gift.Some? ==> !StillReached(w, p, gift.value)
  {
  }

  lemma PlainLaunch(w: World, pool: set<nat>, p: nat, c: nat, ep: nat, frames: set<nat>)
    requires Secure(w, pool) && Lives(w, p) && c < |w.procs| && w.procs[c].None? && frames <= w.avail
    ensures var a := AccessOf(w, p);
            var kept := a.(table := Install(a.table, ResultCap(ep, MayRecv)).0);
            Secure(w.(procs := w.procs[p := Some(w.procs[p].value.(access := kept))]
                                     [c := Some(Holder(NoRecords(ChildTable(ep, None)), frames))],
                      avail := w.avail - frames), pool)
  {
    hide Secure, Install, ChildTable;
    LaunchKeeps(w, pool, p, c, ep, frames);
    var u := Launch(w, p, c, ep, frames);
    BestowKeeps(u, pool, p, ResultCap(ep, MayRecv));
    var a := AccessOf(w, p);
    var kept := a.(table := Install(a.table, ResultCap(ep, MayRecv)).0);
    assert u.procs[p := Some(w.procs[p].value.(access := kept))]
        == w.procs[p := Some(w.procs[p].value.(access := kept))][c := Some(Holder(NoRecords(ChildTable(ep, None)), frames))];
  }
}
