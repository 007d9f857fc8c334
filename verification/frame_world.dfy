/** The pooled frames and everyone who can hold or reach one, and what each kernel
    entry does to them (kernel/src/syscall.rs, kernel/src/process.rs,
    kernel/src/ipc.rs, kernel/src/virtio_blk.rs). */
module FrameWorld {
  import opened Prelude
  import opened Capabilities
  import opened FrameAllocator
  import opened WaitQueues
  import opened IpcSafety
  import M = IpcModel
  import opened Loader
  import opened UserMaps

  /** A live process: what it holds and has mapped, and the frames the loader gave it. */
  datatype Holder = Holder(access: Access, boot: set<nat>)

  /** `bound` is the devices still bound, by index; `lost` is the frames a failed load
      took and never recorded. */
  datatype World = World(procs: seq<Option<Holder>>, avail: set<nat>, bound: map<nat, Binding>, lost: set<nat>)

  /** The party a frame belongs to. */
  datatype Keeper = Unused | Lost | Loaded(p: nat) | InSlot(p: nat, s: nat) | Device(dev: nat)

  predicate Lives(w: World, p: nat) {
    p < |w.procs| && w.procs[p].Some?
  }

  function AccessOf(w: World, p: nat): Access
    requires Lives(w, p)
  {
    w.procs[p].value.access
  }

  function TableOf(w: World, p: nat): Table
    requires Lives(w, p)
  {
    AccessOf(w, p).table
  }

  function CapIn(w: World, p: nat, s: nat): Option<Capability> {
    if Lives(w, p) && s < MAX_CAPS then TableOf(w, p).caps[s] else None
  }

  predicate NamesFrame(c: Option<Capability>, f: nat) {
    c.Some? && c.value.target == Frame(f * FRAME_SIZE)
  }

  predicate NamesDevice(c: Option<Capability>, dev: nat) {
    c.Some? && c.value.target == BoundDevice(dev)
  }

  predicate Keeps(w: World, k: Keeper, f: nat) {
    match k
    case Unused => f in w.avail
    case Lost => f in w.lost
    case Loaded(p) => Lives(w, p) && f in w.procs[p].value.boot
    case InSlot(p, s) => NamesFrame(CapIn(w, p, s), f)
    case Device(dev) => dev in w.bound && f * FRAME_SIZE in DeviceFrames(w.bound[dev])
  }

  /** Every frame of the pool has exactly one keeper, and no other frame has any. */
  ghost predicate Ledger(w: World, pool: set<nat>) {
    && (forall k: Keeper, f: nat :: Keeps(w, k, f) ==> f in pool)
    && (forall f: nat :: f in pool ==> exists k :: Keeps(w, k, f))
    && forall f: nat, k, l :: Keeps(w, k, f) && Keeps(w, l, f) ==> k == l
  }

  /** Frame capabilities name whole frames; framebuffers lie outside the pool. */
  ghost predicate Apart(target: CapObject, pool: set<nat>) {
    match target
    case Frame(addr) => addr % FRAME_SIZE == 0
    case Framebuffer(base, _, _, _, _, _) => forall x: nat :: base <= x < base + FbPages(target) * FRAME_SIZE ==> x / FRAME_SIZE !in pool
    case _ => true
  }

  ghost predicate CapsApart(t: Table, pool: set<nat>) {
    forall s :: 0 <= s < MAX_CAPS && t.caps[s].Some? ==> Apart(t.caps[s].value.target, pool)
  }

  ghost predicate Sane(h: Holder, pool: set<nat>) {
    Coherent(h.access) && Tidy(h.access.table) && CapsApart(h.access.table, pool)
  }

  /** Doorbells are device memory, one per device; queues and buffers are whole frames. */
  ghost predicate BindingOk(b: Binding, pool: set<nat>) {
    b.notify / FRAME_SIZE !in pool && forall a :: a in DeviceFrames(b) ==> a % FRAME_SIZE == 0
  }

  ghost predicate DoorbellsDiffer(bound: map<nat, Binding>) {
    forall d, e :: d in bound && e in bound && d != e ==> bound[d].notify != bound[e].notify
  }

  /** Each bound device is named by at most one capability, and none names another. */
  ghost predicate Devices(w: World, pool: set<nat>) {
    && (forall d :: d in w.bound ==> BindingOk(w.bound[d], pool))
    && DoorbellsDiffer(w.bound)
    && (forall p: nat, s: nat, d: nat :: NamesDevice(CapIn(w, p, s), d) ==> d in w.bound)
    && forall p: nat, s: nat, q: nat, t: nat, d: nat :: NamesDevice(CapIn(w, p, s), d) && NamesDevice(CapIn(w, q, t), d) ==> p == q && s == t
  }

  /** The device a capability lets its holder map. */
  function DeviceOf(c: Option<Capability>): Option<nat> {
    if c.Some? && c.value.target.BoundDevice? && MayMap in c.value.rights then Some(c.value.target.dev) else None
  }

  predicate TiedBy(a: Access, bound: map<nat, Binding>, s: nat, x: nat) {
    && s < MAX_CAPS && DeviceOf(a.table.caps[s]).Some? && DeviceOf(a.table.caps[s]).value in bound
    && x in a.pages && a.pages[x].phys in DevicePages(bound[DeviceOf(a.table.caps[s]).value]) && !a.pages[x].executable
  }

  ghost predicate Tied(a: Access, bound: map<nat, Binding>, x: nat) {
    exists s: nat :: TiedBy(a, bound, s, x)
  }

  /** Every page without a record belongs to a bound device whose capability is held. */
  ghost predicate Tethered(a: Access, bound: map<nat, Binding>) {
    forall x: nat :: Loose(a, x) ==> Tied(a, bound, x)
  }

  ghost predicate Secure(w: World, pool: set<nat>) {
    && |w.procs| == MAX_PROCESSES && Ledger(w, pool) && Devices(w, pool)
    && forall p: nat :: Lives(w, p) ==> Sane(w.procs[p].value, pool) && Tethered(AccessOf(w, p), w.bound)
  }

  // ----- the steps -----

  function WithAccess(w: World, p: nat, a: Access): World
    requires Lives(w, p)
  {
    w.(procs := w.procs[p := Some(w.procs[p].value.(access := a))])
  }

  function WithTable(w: World, p: nat, t: Table): World
    requires Lives(w, p)
  {
    WithAccess(w, p, w.procs[p].value.access.(table := t))
  }

  function NoRecords(t: Table): Access {
    Access(t, seq(MAX_USER_MAPS, _ => None), seq(MAX_FB_MAPS, _ => None), map[])
  }

  /** A process set up over frames the loader took. */
  function StartStep(w: World, p: nat, boot: set<nat>): World {
    if p < |w.procs| && w.procs[p].None? && boot <= w.avail
    then w.(procs := w.procs[p := Some(Holder(NoRecords(M.FreshTable()), boot))], avail := w.avail - boot)
    else w
  }

  function FramesOfDevice(b: Binding): set<nat> {
    set a | a in DeviceFrames(b) :: a / FRAME_SIZE
  }

  /** Bring-up of a directly bound device: five free frames become its queue and
      buffers. */
  ghost function AttachStep(w: World, pool: set<nat>, dev: nat, b: Binding): World {
    if dev !in w.bound && BindingOk(b, pool) && |FramesOfDevice(b)| == 5 && DoorbellsDiffer(w.bound[dev := b]) && FramesOfDevice(b) <= w.avail
    then w.(bound := w.bound[dev := b], avail := w.avail - FramesOfDevice(b))
    else w
  }

  /** The kernel's one grant of a bound device. */
  ghost function GrantStep(w: World, p: nat, dev: nat): World
    requires Lives(w, p)
  {
    if dev in w.bound && forall q: nat, s: nat :: !NamesDevice(CapIn(w, q, s), dev)
    then WithTable(w, p, Install(TableOf(w, p), Capability(BoundDevice(dev), {MayMap}, None)).0)
    else w
  }

  ghost function Lowest(s: set<nat>): (f: nat)
    requires s != {}
    ensures f in s && forall g :: g in s ==> f <= g
  {
    var x :| x in s;
    if s == {x} then x
    else
      var rest := Lowest(s - {x});
      assert forall g :: g in s ==> g == x || g in s - {x};
      if rest < x then rest else x
  }

  /** `sys_frame_alloc`. */
  ghost function GrabStep(w: World, p: nat): World
    requires Lives(w, p)
  {
    if w.avail == {} then w
    else
      var f := Lowest(w.avail);
      var (table, landing) := Install(TableOf(w, p), Capability(Frame(f * FRAME_SIZE), {MayRead, MayWrite, MayMap}, None));
      if landing.Some? then WithTable(w, p, table).(avail := w.avail - {f}) else w
  }

  /** A kernel grant of anything but a frame or a bound device. */
  function BestowStep(w: World, p: nat, cap: Capability): World
    requires Lives(w, p)
  {
    WithTable(w, p, Install(TableOf(w, p), cap).0)
  }

  /** A transfer by message, with the giver's mappings taken away first. A receiver
      without room means the capability is back with the giver, unmapped. */
  ghost function GiveStep(w: World, p: nat, slot: nat, q: nat): World
    requires Lives(w, p) && Lives(w, q) && p != q
  {
    match Held(TableOf(w, p), slot)
    case None => w
    case Some(cap) =>
      var a := w.procs[p].value.access;
      var left := Cut(a.(table := LentFrom(a.table, slot)), slot, cap.target);
      var (there, landing) := InstallHome(TableOf(w, q), LentTo(cap, Origin(p, slot), q), cap.origin, q);
      if landing.Some? then WithTable(WithAccess(w, p, left), q, there)
      else WithAccess(w, p, left.(table := Install(left.table, cap).0))
  }

  ghost function RevokedAt(w: World, p: nat, slot: nat): World
    requires Lives(w, p)
  {
    WithAccess(w, p, RevokeStep(w.procs[p].value.access, slot).0)
  }

  /** `unbind`: the device goes, and its five frames are free again. No user page of it
      is unmapped. */
  function Unbound(w: World, dev: nat): World {
    if dev in w.bound then w.(bound := w.bound - {dev}, avail := w.avail + FramesOfDevice(w.bound[dev])) else w
  }

  /** `sys_cap_release`. */
  ghost function DropStep(w: World, p: nat, slot: nat): World
    requires Lives(w, p)
  {
    match Held(TableOf(w, p), slot)
    case None => w
    case Some(cap) =>
      match OnRelease(cap)
      case Refuse => w
      case FreeFrame(addr) => var v := RevokedAt(w, p, slot); v.(avail := v.avail + {addr / FRAME_SIZE})
      case ReclaimTo(o) => ReturnHome(RevokedAt(w, p, slot), p, cap)
      case UnbindDevice(dev) => Unbound(RevokedAt(w, p, slot), dev)
      case _ => RevokedAt(w, p, slot)
  }

  /** `reclaim_cap_home`, from the process `p`. */
  function ReturnHome(w: World, p: nat, cap: Capability): World {
    match ReclaimTarget(cap, p)
    case Some((o, home)) =>
      if o.lender != p && Lives(w, o.lender) then WithTable(w, o.lender, SendHome(TableOf(w, o.lender), o.home, home).0) else w
    case None => w
  }

  function ReturnAll(w: World, p: nat, slot: nat): World
    requires Lives(w, p) && slot <= MAX_CAPS
    decreases MAX_CAPS - slot
  {
    if slot == MAX_CAPS then w
    else
      var c := TableOf(w, p).caps[slot];
      var v := if c.Some? then ReturnHome(w, p, c.value) else w;
      ReturnAll(v, p, slot + 1)
  }

  function TableFrames(t: Table): set<nat> {
    set s | 0 <= s < MAX_CAPS && t.caps[s].Some? && t.caps[s].value.target.Frame? :: t.caps[s].value.target.addr / FRAME_SIZE
  }

  /** Death: what was borrowed goes back, no other table names the dead process as a
      lender, and teardown frees the frames of its table and of its loader. */
  function ExitStep(w: World, p: nat): World
    requires Lives(w, p)
  {
    var v := ReturnAll(w, p, 0);
    var h := w.procs[p].value;
    v.(procs := seq(|v.procs|, q requires 0 <= q < |v.procs| =>
            if q == p then None
            else if v.procs[q].None? then None
            else Some(v.procs[q].value.(access := v.procs[q].value.access.(table := ClaimsCleared(v.procs[q].value.access.table, p))))),
       avail := w.avail + TableFrames(h.access.table) + h.boot)
  }

  function FirstEmpty(procs: seq<Option<Holder>>): Option<nat> {
    Vacant(procs)
  }

  /** What the caller of a spawn is left with once it has given `slot` away. */
  ghost function GivenAway(w: World, p: nat, slot: nat): Access
    requires Lives(w, p) && Held(TableOf(w, p), slot).Some?
  {
    var a := AccessOf(w, p);
    Cut(a.(table := LentFrom(a.table, slot)), slot, a.table.caps[slot].value.target)
  }

  function ResultCap(ep: nat, right: Right): Capability { Capability(EndpointCap(ep), {right}, None) }

  function ChildTable(ep: nat, gift: Option<Capability>): Table {
    var granted := Put(M.FreshTable(), 1, ResultCap(ep, MaySend));
    match gift
    case None => granted
    case Some(cap) => Put(granted, 2, cap)
  }

  /** `spawn_scheduled`: `ep` is the result endpoint, if there is one left; `loads` says
      whether the image could be loaded, and `frames` is what the loader took, kept by
      the child or lost by the failure. */
  ghost function SpawnStep(w: World, p: nat, gift: Option<nat>, ep: Option<nat>, loads: bool, frames: set<nat>): World
    requires Lives(w, p)
  {
    if ep.None? || !(frames <= w.avail) then w
    else
      var taken := if gift.Some? then Held(TableOf(w, p), gift.value) else None;
      var mine := if taken.Some? then GivenAway(w, p, gift.value) else AccessOf(w, p);
      var back := if taken.Some? then mine.(table := TakenBack(mine.table, gift.value, taken.value)) else mine;
      match FirstEmpty(w.procs)
      case None => WithAccess(w, p, back)
      case Some(c) =>
        if !loads then WithAccess(w, p, back).(avail := w.avail - frames, lost := w.lost + frames)
        else
          var lent := if taken.Some? then Some(M.LentToChild(taken.value, Origin(p, gift.value))) else None;
          var child := Holder(NoRecords(ChildTable(ep.value, lent)), frames);
          var kept := mine.(table := Install(mine.table, ResultCap(ep.value, MayRecv)).0);
          w.(procs := w.procs[p := Some(w.procs[p].value.(access := kept))][c := Some(child)], avail := w.avail - frames)
  }
}
