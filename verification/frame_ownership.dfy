/** Every step keeps one owner per frame and no access without authority, but for
    exactly those that take a bound device from a process that still has it mapped. */
module FrameOwnership {
  import opened Prelude
  import opened Capabilities
  import opened FrameAllocator
  import opened WaitQueues
  import opened IpcSafety
  import M = IpcModel
  import S = IpcSteps
  import opened Loader
  import opened UserMaps
  import opened FrameWorld

  // ----- how ownership moves -----

  datatype Move = Stay | Take(fs: set<nat>, to: Keeper) | Pass(from: Keeper, to: Keeper) | End(p: nat)

  function MovedTo(m: Move, k: Keeper, f: nat): Keeper {
    match m
    case Stay => k
    case Take(fs, to) => if k == Unused && f in fs then to else k
    case Pass(from, to) => if k == from then to else k
    case End(p) => if k == Loaded(p) || (k.InSlot? && k.p == p) then Unused else k
  }

  ghost predicate Follows(w: World, v: World, m: Move) {
    && (forall k, f: nat :: Keeps(w, k, f) ==> Keeps(v, MovedTo(m, k, f), f))
    && forall l, f: nat :: Keeps(v, l, f) ==> CameFrom(w, m, l, f)
  }

  ghost predicate CameFrom(w: World, m: Move, l: Keeper, f: nat) {
    exists k :: Keeps(w, k, f) && MovedTo(m, k, f) == l
  }

  lemma LedgerFollows(w: World, v: World, m: Move, pool: set<nat>)
    requires Ledger(w, pool) && Follows(w, v, m)
    ensures Ledger(v, pool)
  {
    hide Keeps, MovedTo;
    forall f: nat | f in pool ensures exists l :: Keeps(v, l, f) {
      var k :| Keeps(w, k, f);
      assert Keeps(v, MovedTo(m, k, f), f);
    }
    forall f: nat, l | Keeps(v, l, f) ensures f in pool {
      assert CameFrom(w, m, l, f);
    }
    forall f: nat, k, l | Keeps(v, k, f) && Keeps(v, l, f) ensures k == l {
      assert CameFrom(w, m, k, f) && CameFrom(w, m, l, f);
    }
  }

  /** What a slot says about frames and bound devices. */
  function Solid(c: Option<Capability>): Option<Capability> {
    if c.Some? && (c.value.target.Frame? || c.value.target.BoundDevice?) then Some(c.value.(origin := None)) else None
  }

  lemma SolidDecides(b: Option<Capability>, c: Option<Capability>)
    requires Solid(b) == Solid(c)
    ensures forall f: nat :: NamesFrame(b, f) == NamesFrame(c, f)
    ensures forall d: nat :: NamesDevice(b, d) == NamesDevice(c, d)
    ensures DeviceOf(b) == DeviceOf(c)
  {
  }

  /** Only capabilities changed hands, within and between the same processes. */
  ghost predicate SameHouses(w: World, v: World) {
    && v.avail == w.avail && v.bound == w.bound && v.lost == w.lost && |v.procs| == |w.procs|
    && forall x: nat :: Lives(v, x) == Lives(w, x) && (Lives(w, x) ==> v.procs[x].value.boot == w.procs[x].value.boot)
  }

  /** What (p, s) said is now said by (q, k), which said nothing; nothing else moved. */
  ghost predicate SolidMoved(w: World, v: World, p: nat, s: nat, q: nat, k: nat) {
    && Solid(CapIn(v, q, k)) == Solid(CapIn(w, p, s))
    && ((p, s) != (q, k) ==> Solid(CapIn(w, q, k)).None? && Solid(CapIn(v, p, s)).None?)
    && forall x: nat, y: nat :: (x, y) != (p, s) && (x, y) != (q, k) ==> Solid(CapIn(v, x, y)) == Solid(CapIn(w, x, y))
  }

  function From(x: nat, y: nat, p: nat, s: nat, q: nat, k: nat): (nat, nat) {
    if (x, y) == (q, k) then (p, s) else (x, y)
  }

  lemma SolidSource(w: World, v: World, p: nat, s: nat, q: nat, k: nat, x: nat, y: nat)
    requires SolidMoved(w, v, p, s, q, k) && Solid(CapIn(v, x, y)).Some?
    ensures var a := From(x, y, p, s, q, k); Solid(CapIn(w, a.0, a.1)) == Solid(CapIn(v, x, y))
    ensures (x, y) == (p, s) ==> (q, k) == (p, s)
  {
  }

  lemma SlotMoves(w: World, v: World, pool: set<nat>, p: nat, s: nat, q: nat, k: nat)
    requires Ledger(w, pool) && Devices(w, pool) && SameHouses(w, v) && SolidMoved(w, v, p, s, q, k)
    ensures Ledger(v, pool) && Devices(v, pool)
  {
    hide Solid, CapIn, NamesFrame, NamesDevice, BindingOk, DoorbellsDiffer, DeviceFrames;
    var m := Pass(InSlot(p, s), InSlot(q, k));
    forall c, f: nat | Keeps(w, c, f) ensures Keeps(v, MovedTo(m, c, f), f) {
      if c.InSlot? { SlotKeepsOn(w, v, p, s, q, k, c.p, c.s, f); }
    }
    forall l, f: nat | Keeps(v, l, f) ensures CameFrom(w, m, l, f) {
      var c := l;
      if l.InSlot? {
        NamesAreSolid(CapIn(v, l.p, l.s), f);
        SolidSource(w, v, p, s, q, k, l.p, l.s);
        var a := From(l.p, l.s, p, s, q, k);
        SolidDecides(CapIn(w, a.0, a.1), CapIn(v, l.p, l.s));
        c := InSlot(a.0, a.1);
      }
      assert Keeps(w, c, f) && MovedTo(m, c, f) == l;
    }
    LedgerFollows(w, v, m, pool);
    DevicesMove(w, v, pool, p, s, q, k);
  }

  lemma NamesAreSolid(c: Option<Capability>, n: nat)
    ensures NamesFrame(c, n) || NamesDevice(c, n) ==> Solid(c).Some?
  {
  }

  lemma SlotKeepsOn(w: World, v: World, p: nat, s: nat, q: nat, k: nat, x: nat, y: nat, f: nat)
    requires SolidMoved(w, v, p, s, q, k) && NamesFrame(CapIn(w, x, y), f)
    ensures if (x, y) == (p, s) then NamesFrame(CapIn(v, q, k), f) else NamesFrame(CapIn(v, x, y), f)
  {
    NamesAreSolid(CapIn(w, x, y), f);
    if (x, y) == (p, s) { SolidDecides(CapIn(v, q, k), CapIn(w, p, s)); } else { SolidDecides(CapIn(v, x, y), CapIn(w, x, y)); }
  }

  lemma DevicesMove(w: World, v: World, pool: set<nat>, p: nat, s: nat, q: nat, k: nat)
    requires Devices(w, pool) && v.bound == w.bound && SolidMoved(w, v, p, s, q, k)
    ensures Devices(v, pool)
  {
    hide Solid, CapIn, NamesDevice, BindingOk, DoorbellsDiffer;
    forall x: nat, y: nat, d: nat | NamesDevice(CapIn(v, x, y), d) ensures d in v.bound {
      DeviceSource(w, v, p, s, q, k, x, y, d);
    }
    forall x: nat, y: nat, u: nat, z: nat, d: nat | NamesDevice(CapIn(v, x, y), d) && NamesDevice(CapIn(v, u, z), d)
      ensures x == u && y == z
    {
      DeviceSource(w, v, p, s, q, k, x, y, d);
      DeviceSource(w, v, p, s, q, k, u, z, d);
      var a, b := From(x, y, p, s, q, k), From(u, z, p, s, q, k);
      assert a == b;
    }
  }

  lemma DeviceSource(w: World, v: World, p: nat, s: nat, q: nat, k: nat, x: nat, y: nat, d: nat)
    requires SolidMoved(w, v, p, s, q, k) && NamesDevice(CapIn(v, x, y), d)
    ensures NamesDevice(CapIn(w, From(x, y, p, s, q, k).0, From(x, y, p, s, q, k).1), d)
    ensures (x, y) == (p, s) ==> (q, k) == (p, s)
  {
    NamesAreSolid(CapIn(v, x, y), d);
    SolidSource(w, v, p, s, q, k, x, y);
    var a := From(x, y, p, s, q, k);
    SolidDecides(CapIn(w, a.0, a.1), CapIn(v, x, y));
  }

  // ----- pages without a record -----

  /** The same loose pages, and every device that could be mapped still can be. */
  ghost predicate Ties(a: Access, b: Access) {
    && SameLoose(a, b)
    && forall s: nat :: s < MAX_CAPS && DeviceOf(a.table.caps[s]).Some? ==> HoldsDevice(b.table, DeviceOf(a.table.caps[s]).value)
  }

  ghost predicate HoldsDevice(t: Table, dev: nat) {
    exists s: nat :: s < MAX_CAPS && DeviceOf(t.caps[s]) == Some(dev)
  }

  lemma TetherKept(a: Access, b: Access, bound: map<nat, Binding>)
    requires Tethered(a, bound) && Ties(a, b)
    ensures Tethered(b, bound)
  {
    hide Loose;
    forall x: nat | Loose(b, x) ensures Tied(b, bound, x) {
      assert Tied(a, bound, x);
      var s: nat :| TiedBy(a, bound, s, x);
      var t: nat :| t < MAX_CAPS && DeviceOf(b.table.caps[t]) == DeviceOf(a.table.caps[s]);
      assert TiedBy(b, bound, t, x);
    }
  }

  /** The process has pages of this bound device mapped. */
  ghost predicate MapsDevice(w: World, p: nat, dev: nat) {
    Lives(w, p) && dev in w.bound && exists x: nat :: LooseOf(AccessOf(w, p), w.bound[dev], x)
  }

  ghost predicate LooseOf(a: Access, b: Binding, x: nat) {
    Loose(a, x) && a.pages[x].phys in DevicePages(b)
  }

  /** Two bound devices share no physical page. */
  lemma DevicePagesApart(w: World, pool: set<nat>, d: nat, e: nat, phys: nat)
    requires Ledger(w, pool) && Devices(w, pool) && d in w.bound && e in w.bound
    requires phys in DevicePages(w.bound[d]) && phys in DevicePages(w.bound[e])
    ensures d == e
  {
    var f := phys / FRAME_SIZE;
    PageOfDevice(w, pool, d, phys);
    PageOfDevice(w, pool, e, phys);
    if f in pool { assert Keeps(w, Device(d), f) && Keeps(w, Device(e), f); }
  }

  lemma PageOfDevice(w: World, pool: set<nat>, d: nat, phys: nat)
    requires Ledger(w, pool) && Devices(w, pool) && d in w.bound && phys in DevicePages(w.bound[d])
    ensures if phys / FRAME_SIZE in pool then Keeps(w, Device(d), phys / FRAME_SIZE) else phys == w.bound[d].notify
  {
    var b := w.bound[d];
    assert BindingOk(b, pool);
    if phys in DeviceFrames(b) {
      assert phys % FRAME_SIZE == 0 && phys / FRAME_SIZE * FRAME_SIZE == phys;
      assert Keeps(w, Device(d), phys / FRAME_SIZE);
    }
  }

  /** A process that loses its capability for a device stays tethered exactly when it
      has none of that device's pages; `now` is the devices bound afterwards. */
  lemma TetherCut(w: World, pool: set<nat>, p: nat, slot: nat, dev: nat, b: Access, now: map<nat, Binding>)
    requires Secure(w, pool) && NamesDevice(CapIn(w, p, slot), dev) && SameLoose(AccessOf(w, p), b)
    requires forall s: nat :: s < MAX_CAPS && s != slot ==> Solid(b.table.caps[s]) == Solid(TableOf(w, p).caps[s])
    requires DeviceOf(b.table.caps[slot]).None? && (now == w.bound || now == w.bound - {dev})
    ensures Tethered(b, now) <==> !MapsDevice(w, p, dev)
  {
    hide Loose, Solid, DevicePages;
    var a := AccessOf(w, p);
    assert Tethered(a, w.bound);
    assert dev in w.bound;
    forall x: nat | Loose(b, x) ensures Tied(b, now, x) <==> !LooseOf(a, w.bound[dev], x) {
      assert Loose(a, x) && Tied(a, w.bound, x);
      var s: nat :| TiedBy(a, w.bound, s, x);
      var d := DeviceOf(TableOf(w, p).caps[s]).value;
      if s == slot {
        assert LooseOf(a, w.bound[dev], x);
      } else {
        SolidDecides(b.table.caps[s], TableOf(w, p).caps[s]);
        assert d != dev by { assert NamesDevice(CapIn(w, p, s), d); }
        assert TiedBy(b, now, s, x);
        if LooseOf(a, w.bound[dev], x) { DevicePagesApart(w, pool, d, dev, a.pages[x].phys); }
      }
      if t: nat :| TiedBy(b, now, t, x) {
        var e := DeviceOf(b.table.caps[t]).value;
        SolidDecides(b.table.caps[t], TableOf(w, p).caps[t]);
        assert NamesDevice(CapIn(w, p, t), e);
        if LooseOf(a, w.bound[dev], x) { DevicePagesApart(w, pool, e, dev, a.pages[x].phys); }
      }
    }
  }

  // ----- one table at a time -----

  /** The table is as it was, or has `cap` in one slot that was empty. */
  ghost predicate Arrived(t: Table, u: Table, cap: Capability) {
    Tidy(u) && (u.caps == t.caps || exists i :: 0 <= i < MAX_CAPS && Lands(t, u, i, cap))
  }

  predicate Lands(t: Table, u: Table, i: nat, cap: Capability)
    requires i < MAX_CAPS
  {
    t.caps[i].None? && u.caps == t.caps[i := Some(cap)]
  }

  lemma InstallArrives(t: Table, cap: Capability)
    requires Tidy(t)
    ensures var (u, landing) := Install(t, cap);
      && Arrived(t, u, cap) && (landing.None? ==> u == t)
      && (landing.Some? ==> landing.value < MAX_CAPS && Lands(t, u, landing.value, cap))
  {
    var (u, landing) := Install(t, cap);
    if landing.Some? { assert Lands(t, u, landing.value, cap); }
  }

  lemma HomecomingArrives(t: Table, cap: Capability, prior: Option<Origin>, dest: nat)
    requires Tidy(t)
    ensures var (u, landing) := InstallHome(t, cap, prior, dest);
      && Arrived(t, u, cap) && (landing.None? ==> u == t)
      && (landing.Some? ==> landing.value < MAX_CAPS && Lands(t, u, landing.value, cap))
  {
    InstallArrives(t, cap);
    var (u, landing) := InstallHome(t, cap, prior, dest);
    if landing.Some? { assert Lands(t, u, landing.value, cap); }
  }

  lemma SendHomeArrives(t: Table, home: nat, cap: Capability)
    requires Tidy(t)
    ensures Arrived(t, SendHome(t, home, cap).0, cap)
  {
    InstallArrives(t, cap);
    if AwaitsReturn(t, home) { assert Lands(t, SendHome(t, home, cap).0, home, cap); }
  }

  lemma ArrivedSane(h: Holder, u: Table, cap: Capability, pool: set<nat>)
    requires Sane(h, pool) && Arrived(h.access.table, u, cap) && Apart(cap.target, pool)
    ensures Sane(h.(access := h.access.(table := u)), pool) && Ties(h.access, h.access.(table := u))
  {
    hide Coherent, SameLoose;
    ArrivalKeeps(h.access, u);
  }

  /** What is left of a process's access when a slot is emptied is sound, and it has the
      same loose pages. */
  lemma LeavingSane(h: Holder, slot: nat, table: Table, pool: set<nat>)
    requires Sane(h, pool) && slot < MAX_CAPS && h.access.table.caps[slot].Some?
    requires table.caps == h.access.table.caps[slot := None] && Tidy(table)
    ensures var left := Cut(h.access.(table := table), slot, h.access.table.caps[slot].value.target);
            Sane(h.(access := left), pool) && left.table == table && SameLoose(h.access, left)
    ensures Apart(h.access.table.caps[slot].value.target, pool)
  {
    hide Coherent, SameLoose;
    CutIsExact(h.access, slot, table);
  }

  lemma LentLeaves(h: Holder, slot: nat, pool: set<nat>)
    requires Sane(h, pool) && slot < MAX_CAPS && h.access.table.caps[slot].Some?
    ensures var t := LentFrom(h.access.table, slot);
            && Tidy(t) && t.caps == h.access.table.caps[slot := None]
            && (!LendReserves(h.access.table.caps[slot].value) ==> Available(t, slot))
            && var left := Cut(h.access.(table := t), slot, h.access.table.caps[slot].value.target);
               Sane(h.(access := left), pool) && left.table == t && SameLoose(h.access, left)
    ensures Apart(h.access.table.caps[slot].value.target, pool)
  {
    hide Coherent, SameLoose;
    LeavingSane(h, slot, LentFrom(h.access.table, slot), pool);
  }

  lemma RevokedLeaves(h: Holder, slot: nat, pool: set<nat>)
    requires Sane(h, pool) && slot < MAX_CAPS && h.access.table.caps[slot].Some?
    ensures var left := RevokeStep(h.access, slot).0;
            Sane(h.(access := left), pool) && left.table == Without(h.access.table, slot) && SameLoose(h.access, left)
    ensures Apart(h.access.table.caps[slot].value.target, pool)
  {
    hide Coherent, SameLoose;
    LeavingSane(h, slot, Without(h.access.table, slot), pool);
  }

  /** Emptying a slot that named no device cuts no tether. */
  lemma LeavingTies(a: Access, b: Access, slot: nat)
    requires SameLoose(a, b) && slot < MAX_CAPS && b.table.caps == a.table.caps[slot := None] && DeviceOf(a.table.caps[slot]).None?
    ensures Ties(a, b)
  {
    hide SameLoose;
    forall s: nat | s < MAX_CAPS && DeviceOf(a.table.caps[s]).Some? ensures HoldsDevice(b.table, DeviceOf(a.table.caps[s]).value) {
      assert DeviceOf(b.table.caps[s]) == DeviceOf(a.table.caps[s]);
    }
  }

  /** A capability that left `slot` and is back at `k` cuts none either. */
  lemma ReturningTies(a: Access, b: Access, slot: nat, k: nat)
    requires SameLoose(a, b) && slot < MAX_CAPS && k < MAX_CAPS && (k == slot || a.table.caps[k].None?)
    requires b.table.caps == a.table.caps[slot := None][k := a.table.caps[slot]]
    ensures Ties(a, b)
  {
    hide SameLoose;
    forall s: nat | s < MAX_CAPS && DeviceOf(a.table.caps[s]).Some? ensures HoldsDevice(b.table, DeviceOf(a.table.caps[s]).value) {
      var t := if s == slot then k else s;
      assert DeviceOf(b.table.caps[t]) == DeviceOf(a.table.caps[s]);
    }
  }

  lemma HolderFacts(w: World, pool: set<nat>, p: nat)
    requires Secure(w, pool) && Lives(w, p)
    ensures Sane(w.procs[p].value, pool) && Tethered(AccessOf(w, p), w.bound)
    ensures Tidy(TableOf(w, p)) && CapsApart(TableOf(w, p), pool) && Coherent(AccessOf(w, p)) && p < MAX_PROCESSES
  {
  }

  /** One process changed, and no device came or went. */
  lemma OneSecure(w: World, v: World, p: nat, pool: set<nat>)
    requires Secure(w, pool) && Ledger(v, pool) && Devices(v, pool) && v.bound == w.bound && p < |w.procs|
    requires |v.procs| == |w.procs| && v.procs == w.procs[p := v.procs[p]]
    requires v.procs[p].Some? ==> Sane(v.procs[p].value, pool) && Tethered(AccessOf(v, p), v.bound)
    ensures Secure(v, pool)
  {
  }

  lemma TwoSecure(w: World, v: World, p: nat, q: nat, pool: set<nat>)
    requires Secure(w, pool) && Ledger(v, pool) && Devices(v, pool) && v.bound == w.bound && |v.procs| == |w.procs|
    requires forall x: nat :: x < |w.procs| && x != p && x != q ==> v.procs[x] == w.procs[x]
    requires Lives(v, p) && Sane(v.procs[p].value, pool) && Tethered(AccessOf(v, p), v.bound)
    requires Lives(v, q) && Sane(v.procs[q].value, pool) && Tethered(AccessOf(v, q), v.bound)
    ensures Secure(v, pool)
  {
  }

  /** A step that moved nothing solid and kept one process's tether. */
  lemma QuietStep(w: World, pool: set<nat>, p: nat, a: Access)
    requires Secure(w, pool) && Lives(w, p) && Sane(w.procs[p].value.(access := a), pool) && Ties(AccessOf(w, p), a)
    requires forall s: nat :: s < MAX_CAPS ==> Solid(a.table.caps[s]) == Solid(TableOf(w, p).caps[s])
    ensures Secure(WithAccess(w, p, a), pool)
  {
    hide Sane, Ties, Ledger, Devices, Tethered, Solid;
    var v := WithAccess(w, p, a);
    HolderFacts(w, pool, p);
    assert SolidMoved(w, v, p, 0, p, 0);
    SlotMoves(w, v, pool, p, 0, p, 0);
    TetherKept(AccessOf(w, p), a, w.bound);
    OneSecure(w, v, p, pool);
  }
}
