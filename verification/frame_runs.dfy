/** Frame ownership over whole runs, isolation in every state they reach, and the run
    the kernel allows that breaks it (kernel/src/syscall.rs, kernel/src/virtio_blk.rs). */
module FrameRuns {
  import opened Prelude
  import opened Capabilities
  import opened FrameAllocator
  import opened WaitQueues
  import opened IpcSafety
  import M = IpcModel
  import opened Loader
  import opened UserMaps
  import opened FrameWorld
  import opened FrameOwnership
  import opened FrameSteps
  import opened FrameDepartures

  datatype Op =
    | Start(p: nat, boot: set<nat>)
    | Attach(dev: nat, binding: Binding)
    | GrantDevice(p: nat, dev: nat)
    | Grab(p: nat)
    | Bestow(p: nat, cap: Capability)
    | MapOne(p: nat, slot: nat, va: nat, room: bool)
    | MapScreen(p: nat, slot: nat, va: nat, infoOk: bool, room: bool)
    | Bind(p: nat, slot: nat, va: nat, infoOk: bool, room: bool)
    | Give(p: nat, slot: nat, q: nat)
    | Spawn(p: nat, gift: Option<nat>, ep: Option<nat>, loads: bool, frames: set<nat>)
    | Drop(p: nat, slot: nat)
    | Exit(p: nat)

  /** One step by a live process. The kernel grants no frames, and no framebuffer that
      lies in the pool. */
  ghost function Step(w: World, pool: set<nat>, op: Op): World {
    if op.Start? then StartStep(w, op.p, op.boot)
    else if op.Attach? then AttachStep(w, pool, op.dev, op.binding)
    else if !Lives(w, op.p) then w
    else
      match op
      case GrantDevice(p, dev) => GrantStep(w, p, dev)
      case Grab(p) => GrabStep(w, p)
      case Bestow(p, cap) => if cap.target.Frame? || cap.target.BoundDevice? || !Apart(cap.target, pool) then w else BestowStep(w, p, cap)
      case MapOne(p, slot, va, room) => WithAccess(w, p, FrameMapStep(AccessOf(w, p), slot, va, room).0)
      case MapScreen(p, slot, va, infoOk, room) => WithAccess(w, p, FbMapStep(AccessOf(w, p), slot, va, infoOk, room).0)
      case Bind(p, slot, va, infoOk, room) => WithAccess(w, p, BindStep(AccessOf(w, p), w.bound, slot, va, infoOk, room).0)
      case Give(p, slot, q) => if q == p || !Lives(w, q) then w else GiveStep(w, p, slot, q)
      case Spawn(p, gift, ep, loads, frames) => SpawnStep(w, p, gift, ep, loads, frames)
      case Drop(p, slot) => DropStep(w, p, slot)
      case Exit(p) => ExitStep(w, p)
  }

  /** The slot a step takes a capability out of for good. */
  predicate TakesFrom(w: World, op: Op, p: nat, slot: nat) {
    match op
    case Give(x, s, q) => x == p && s == slot && q != p && GiftLands(w, p, slot, q)
    case Spawn(x, gift, ep, loads, frames) => x == p && gift == Some(slot) && Launches(w, ep, loads, frames)
    case Drop(x, s) => x == p && s == slot
    case _ => false
  }

  /** The step releases, sends or gives to a child a bound device that the process
      doing so still has mapped. */
  ghost predicate StrandsAccess(w: World, op: Op) {
    (op.Give? || op.Spawn? || op.Drop?) && Lives(w, op.p)
    && exists slot: nat :: TakesFrom(w, op, op.p, slot) && StillReached(w, op.p, slot)
  }

  /** Every step keeps one owner for each pooled frame and access only under authority,
      exactly unless it strands access to a bound device. */
  lemma StepKeepsExactly(w: World, pool: set<nat>, op: Op)
    requires Secure(w, pool)
    ensures Secure(Step(w, pool, op), pool) <==> !StrandsAccess(w, op)
  {
    hide Secure, Coherent, SameLoose, StartStep, AttachStep, GrantStep, GrabStep, BestowStep, FrameMapStep, FbMapStep, BindStep;
    hide GiveStep, SpawnStep, DropStep, ExitStep, Apart, StillReached, GiftLands, Launches;
    if op.Start? {
      StartKeeps(w, pool, op.p, op.boot);
    } else if op.Attach? {
      AttachKeeps(w, pool, op.dev, op.binding);
    } else if Lives(w, op.p) {
      var a := AccessOf(w, op.p);
      HolderFacts(w, pool, op.p);
      match op
      case GrantDevice(p, dev) => GrantKeeps(w, pool, p, dev);
      case Grab(p) => GrabKeeps(w, pool, p);
      case Bestow(p, cap) =>
        if !cap.target.Frame? && !cap.target.BoundDevice? && Apart(cap.target, pool) { BestowKeeps(w, pool, p, cap); }
      case MapOne(p, slot, va, room) =>
        FrameMapKeeps(a, slot, va, room);
        SameTable(a, slot, va, true, room);
        MapKeeps(w, pool, p, FrameMapStep(a, slot, va, room).0);
      case MapScreen(p, slot, va, infoOk, room) =>
        FbMapKeeps(a, slot, va, infoOk, room);
        SameTable(a, slot, va, infoOk, room);
        MapKeeps(w, pool, p, FbMapStep(a, slot, va, infoOk, room).0);
      case Bind(p, slot, va, infoOk, room) => BindKeeps(w, pool, p, slot, va, infoOk, room);
      case Give(p, slot, q) =>
        if q != p && Lives(w, q) {
          GiveKeepsExactly(w, pool, p, slot, q);
          assert TakesFrom(w, op, p, slot) == GiftLands(w, p, slot, q);
        } else {
          assert forall s: nat :: !TakesFrom(w, op, p, s) by { NobodyToGive(w, p, slot, q); }
        }
      case Spawn(p, gift, ep, loads, frames) =>
        SpawnKeepsExactly(w, pool, p, gift, ep, loads, frames);
        if gift.Some? { assert TakesFrom(w, op, p, gift.value) == Launches(w, ep, loads, frames); }
      case Drop(p, slot) =>
        DropKeepsExactly(w, pool, p, slot);
        assert TakesFrom(w, op, p, slot);
      case Exit(p) => ExitKeeps(w, pool, p);
    }
  }

  lemma SameTable(a: Access, slot: nat, va: nat, infoOk: bool, room: bool)
    ensures FrameMapStep(a, slot, va, room).0.table == a.table && FbMapStep(a, slot, va, infoOk, room).0.table == a.table
  {
  }

  lemma NobodyToGive(w: World, p: nat, slot: nat, q: nat)
    requires q == p || !Lives(w, q)
    ensures forall s: nat :: !TakesFrom(w, Give(p, slot, q), p, s)
  {
  }

  // ----- runs -----

  /** The states a run passes through from a free pool; a step that would strand access
      is not taken. */
  ghost function Run(pool: set<nat>, ops: seq<Op>): (w: World)
    ensures Secure(w, pool)
    decreases |ops|
  {
    if ops == [] then
      AllFreeIsSecure(pool);
      World(seq(MAX_PROCESSES, _ => None), pool, map[], {})
    else
      var w := Run(pool, ops[..|ops| - 1]);
      StepKeepsExactly(w, pool, ops[|ops| - 1]);
      if StrandsAccess(w, ops[|ops| - 1]) then w else Step(w, pool, ops[|ops| - 1])
  }

  lemma AllFreeIsSecure(pool: set<nat>)
    ensures Secure(World(seq(MAX_PROCESSES, _ => None), pool, map[], {}), pool)
  {
    var w := World(seq(MAX_PROCESSES, _ => None), pool, map[], {});
    assert forall f: nat :: f in pool ==> Keeps(w, Unused, f);
  }

  /** A capability that lets its holder map this physical page. */
  predicate Permits(w: World, c: Option<Capability>, phys: nat) {
    || Entitles(c, phys)
    || (DeviceOf(c).Some? && DeviceOf(c).value in w.bound && phys in DevicePages(w.bound[DeviceOf(c).value]))
  }

  /** No access without authority: whatever a process can reach in its mapping window,
      recorded or not, some capability it holds lets it map. */
  lemma AuthorityForAccess(w: World, pool: set<nat>, p: nat, x: nat) returns (slot: nat)
    requires Secure(w, pool) && Lives(w, p) && Window(x) && x in AccessOf(w, p).pages
    ensures slot < MAX_CAPS && Permits(w, CapIn(w, p, slot), AccessOf(w, p).pages[x].phys) && !AccessOf(w, p).pages[x].executable
  {
    hide Coherent;
    var a := AccessOf(w, p);
    HolderFacts(w, pool, p);
    slot := AccessNeedsAuthority(a, x);
    if Loose(a, x) {
      assert Tied(a, w.bound, x);
      slot :| TiedBy(a, w.bound, slot, x);
    }
  }

  /** Who keeps a pooled frame that is reached through this slot. */
  function KeeperThrough(w: World, p: nat, slot: nat): Keeper {
    var c := CapIn(w, p, slot);
    if c.Some? && c.value.target.BoundDevice? then Device(c.value.target.dev) else InSlot(p, slot)
  }

  lemma ReachedThrough(w: World, pool: set<nat>, p: nat, slot: nat, phys: nat)
    requires Secure(w, pool) && Lives(w, p) && slot < MAX_CAPS && Permits(w, CapIn(w, p, slot), phys) && phys / FRAME_SIZE in pool
    ensures Keeps(w, KeeperThrough(w, p, slot), phys / FRAME_SIZE)
  {
    HolderFacts(w, pool, p);
    var c := TableOf(w, p).caps[slot].value;
    assert Apart(c.target, pool);
    if c.target.BoundDevice? { PageOfDevice(w, pool, c.target.dev, phys); }
  }

  /** Isolation: if a process can reach a pooled frame through its mapping window, the
      frame is neither free nor anybody else's, and every process that can reach it is
      that same process, through that same capability. */
  lemma Isolation(w: World, pool: set<nat>, p: nat, x: nat, q: nat, y: nat) returns (slot: nat)
    requires Secure(w, pool) && Lives(w, p) && Lives(w, q) && Window(x) && Window(y)
    requires x in AccessOf(w, p).pages && y in AccessOf(w, q).pages
    requires var f := AccessOf(w, p).pages[x].phys / FRAME_SIZE; f in pool && AccessOf(w, q).pages[y].phys / FRAME_SIZE == f
    ensures p == q && slot < MAX_CAPS && Permits(w, CapIn(w, p, slot), AccessOf(w, p).pages[x].phys)
    ensures forall k :: Keeps(w, k, AccessOf(w, p).pages[x].phys / FRAME_SIZE) <==> k == KeeperThrough(w, p, slot)
  {
    hide Coherent;
    var f := AccessOf(w, p).pages[x].phys / FRAME_SIZE;
    slot := AuthorityForAccess(w, pool, p, x);
    var other := AuthorityForAccess(w, pool, q, y);
    ReachedThrough(w, pool, p, slot, AccessOf(w, p).pages[x].phys);
    ReachedThrough(w, pool, q, other, AccessOf(w, q).pages[y].phys);
    OneKeeper(w, pool, f, KeeperThrough(w, p, slot));
    assert KeeperThrough(w, p, slot) == KeeperThrough(w, q, other);
    if KeeperThrough(w, p, slot).Device? {
      var d := KeeperThrough(w, p, slot).dev;
      assert NamesDevice(CapIn(w, p, slot), d) && NamesDevice(CapIn(w, q, other), d);
    }
  }

  lemma OneKeeper(w: World, pool: set<nat>, f: nat, k: Keeper)
    requires Ledger(w, pool) && Keeps(w, k, f)
    ensures forall l :: Keeps(w, l, f) <==> l == k
  {
  }

  /** In every state any run reaches: a pooled frame some process has mapped is kept by
      what one capability of that process names, so it is neither free nor reachable by
      another process. */
  lemma RunIsolates(pool: set<nat>, ops: seq<Op>, p: nat, x: nat, q: nat, y: nat) returns (slot: nat)
    requires Lives(Run(pool, ops), p) && Lives(Run(pool, ops), q) && Window(x) && Window(y)
    requires x in AccessOf(Run(pool, ops), p).pages && y in AccessOf(Run(pool, ops), q).pages
    requires var w := Run(pool, ops);
             var f := AccessOf(w, p).pages[x].phys / FRAME_SIZE;
             f in pool && AccessOf(w, q).pages[y].phys / FRAME_SIZE == f
    ensures var w := Run(pool, ops);
      && p == q && slot < MAX_CAPS && Permits(w, CapIn(w, p, slot), AccessOf(w, p).pages[x].phys)
      && forall k :: Keeps(w, k, AccessOf(w, p).pages[x].phys / FRAME_SIZE) <==> k == KeeperThrough(w, p, slot)
  {
    hide Secure, Run;
    slot := Isolation(Run(pool, ops), pool, p, x, q, y);
  }

  // ----- the run that needs the condition -----

  function DemoPool(): set<nat> { {1, 2, 3, 4, 5} }
  function DemoDevice(): Binding { Binding(6 * FRAME_SIZE, FRAME_SIZE, 2 * FRAME_SIZE, 3 * FRAME_SIZE, 4 * FRAME_SIZE, 5 * FRAME_SIZE) }
  function DeviceCap(): Capability { Capability(BoundDevice(0), {MayMap}, None) }
  function Setting(): seq<Op> { [Attach(0, DemoDevice())] + [Start(0, {})] + [Start(1, {})] + [GrantDevice(0, 0)] }
  function Binding1(): seq<Op> { Setting() + [Bind(0, 1, USER_MAP_BASE, true, true)] }

  lemma RunStep(pool: set<nat>, ops: seq<Op>, op: Op)
    ensures Run(pool, ops + [op]) == if StrandsAccess(Run(pool, ops), op) then Run(pool, ops) else Step(Run(pool, ops), pool, op)
  {
    assert (ops + [op])[..|ops|] == ops;
  }

  function Bystander(): Holder { Holder(NoRecords(M.FreshTable()), {}) }
  function Empties(): seq<Option<Holder>> { seq(MAX_PROCESSES, _ => None) }

  lemma DeviceIsGood()
    ensures BindingOk(DemoDevice(), DemoPool()) && FramesOfDevice(DemoDevice()) == DemoPool() && |DemoPool()| == 5
  {
    var b := DemoDevice();
    assert DeviceFrames(b) == [FRAME_SIZE, 2 * FRAME_SIZE, 3 * FRAME_SIZE, 4 * FRAME_SIZE, 5 * FRAME_SIZE];
    forall f: nat ensures f in FramesOfDevice(b) <==> f in DemoPool() {
      if f in DemoPool() { assert f * FRAME_SIZE in DeviceFrames(b) && f * FRAME_SIZE / FRAME_SIZE == f; }
    }
  }

  lemma AfterAttach()
    ensures Run(DemoPool(), [Attach(0, DemoDevice())]) == World(Empties(), {}, map[0 := DemoDevice()], {})
  {
    DeviceIsGood();
    RunStep(DemoPool(), [], Attach(0, DemoDevice()));
    assert [] + [Attach(0, DemoDevice())] == [Attach(0, DemoDevice())];
    assert DoorbellsDiffer(map[0 := DemoDevice()]);
  }

  lemma AfterSetting()
    ensures var w := Run(DemoPool(), Setting());
      && w.avail == {} && w.bound == map[0 := DemoDevice()] && w.lost == {} && |w.procs| == MAX_PROCESSES
      && w.procs[0] == Some(Holder(NoRecords(Put(M.FreshTable(), 1, DeviceCap())), {})) && w.procs[1] == Some(Bystander())
  {
    hide Run, Secure;
    AfterAttach();
    RunStep(DemoPool(), [Attach(0, DemoDevice())], Start(0, {}));
    RunStep(DemoPool(), [Attach(0, DemoDevice())] + [Start(0, {})], Start(1, {}));
    RunStep(DemoPool(), [Attach(0, DemoDevice())] + [Start(0, {})] + [Start(1, {})], GrantDevice(0, 0));
    FirstFreeIs(M.FreshTable(), 0, 1);
    var w := Run(DemoPool(), [Attach(0, DemoDevice())] + [Start(0, {})] + [Start(1, {})]);
    assert w.procs == Empties()[0 := Some(Bystander())][1 := Some(Bystander())];
    assert forall q: nat, s: nat :: !NamesDevice(CapIn(w, q, s), 0);
  }

  /** The bound device's pages are mapped, with every frame of the pool in them. */
  ghost predicate Mapped(w: World, t: Table) {
    && w.lost == {} && |w.procs| == MAX_PROCESSES && w.procs[1] == Some(Bystander())
    && w.procs[0] == Some(Holder(NoRecords(t).(pages := BindMap(USER_MAP_BASE, DemoDevice())), {}))
  }

  lemma AfterBinding()
    ensures var w := Run(DemoPool(), Binding1());
      w.avail == {} && w.bound == map[0 := DemoDevice()] && Mapped(w, Put(M.FreshTable(), 1, DeviceCap()))
  {
    hide Run, Secure, BindMap;
    AfterSetting();
    RunStep(DemoPool(), Setting(), Bind(0, 1, USER_MAP_BASE, true, true));
    assert map[] + BindMap(USER_MAP_BASE, DemoDevice()) == BindMap(USER_MAP_BASE, DemoDevice());
  }

  lemma DemoPages()
    ensures var x := USER_MAP_BASE + FRAME_SIZE; var pages := BindMap(USER_MAP_BASE, DemoDevice());
      x in pages && pages[x] == Shared(FRAME_SIZE)
  {
    assert InStretch(USER_MAP_BASE + FRAME_SIZE, USER_MAP_BASE, BIND_PAGES);
  }

  lemma NothingRecorded(t: Table, pages: map<nat, Mapping>, x: nat)
    ensures !InRecord(NoRecords(t).(pages := pages), x)
  {
  }

  lemma DropStrands(w: World)
    requires w.bound == map[0 := DemoDevice()] && Mapped(w, Put(M.FreshTable(), 1, DeviceCap()))
    ensures StrandsAccess(w, Drop(0, 1))
  {
    hide BindMap;
    DemoPages();
    var x := USER_MAP_BASE + FRAME_SIZE;
    NothingRecorded(TableOf(w, 0), AccessOf(w, 0).pages, x);
    assert LooseOf(AccessOf(w, 0), DemoDevice(), x);
    assert MapsDevice(w, 0, 0);
    assert StillReached(w, 0, 1);
    assert TakesFrom(w, Drop(0, 1), 0, 1);
  }

  lemma DropFrees(w: World)
    requires w.avail == {} && w.bound == map[0 := DemoDevice()] && Mapped(w, Put(M.FreshTable(), 1, DeviceCap()))
    ensures var v := Step(w, DemoPool(), Drop(0, 1)); v.avail == DemoPool() && Mapped(v, M.FreshTable())
  {
    hide BindMap, FramesOfDevice, DeviceFrames, DevicePages, DemoPool, FbVas, FrameVas;
    var t := Put(M.FreshTable(), 1, DeviceCap());
    assert Held(t, 1) == Some(DeviceCap()) && OnRelease(DeviceCap()) == ReleaseAction.UnbindDevice(0);
    assert Step(w, DemoPool(), Drop(0, 1)) == Unbound(RevokedAt(w, 0, 1), 0);
    assert {} + DemoPool() == DemoPool();
    DeviceIsGood();
    assert Without(Put(M.FreshTable(), 1, DeviceCap()), 1) == M.FreshTable();
  }

  /** The next process to ask gets a frame the first still writes. */
  lemma GrabbedAndMapped(v: World)
    requires v.avail == DemoPool() && Mapped(v, M.FreshTable())
    ensures var u := Step(Step(v, DemoPool(), Grab(1)), DemoPool(), MapOne(1, 1, USER_MAP_BASE, true));
      && Lives(u, 0) && Lives(u, 1) && u.procs[0] == v.procs[0] && Keeps(u, InSlot(1, 1), 1)
      && USER_MAP_BASE in AccessOf(u, 1).pages && AccessOf(u, 1).pages[USER_MAP_BASE] == Shared(FRAME_SIZE)
  {
    hide BindMap;
    FirstFreeIs(M.FreshTable(), 0, 1);
    assert 1 in DemoPool() && Lowest(DemoPool()) == 1;
  }

  /** Bind, then release: the five frames are free, the releaser still maps them, and
      the next process to ask for a frame is given one of them. Both then write it. */
  lemma ReleaseCanShare()
    ensures var w := Run(DemoPool(), Binding1());
      && StrandsAccess(w, Drop(0, 1))
      && var v := Step(w, DemoPool(), Drop(0, 1));
         var u := Step(Step(v, DemoPool(), Grab(1)), DemoPool(), MapOne(1, 1, USER_MAP_BASE, true));
         && Keeps(v, Unused, 1) && Keeps(u, InSlot(1, 1), 1) && Lives(u, 0) && Lives(u, 1)
         && USER_MAP_BASE + FRAME_SIZE in AccessOf(u, 0).pages && AccessOf(u, 0).pages[USER_MAP_BASE + FRAME_SIZE] == Shared(FRAME_SIZE)
         && USER_MAP_BASE in AccessOf(u, 1).pages && AccessOf(u, 1).pages[USER_MAP_BASE] == Shared(FRAME_SIZE)
  {
    hide Run, Step, StrandsAccess, BindMap;
    AfterBinding();
    var w := Run(DemoPool(), Binding1());
    DropStrands(w);
    DropFrees(w);
    GrabbedAndMapped(Step(w, DemoPool(), Drop(0, 1)));
    DemoPages();
  }
}
