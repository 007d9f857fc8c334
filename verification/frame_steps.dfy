/** What each kernel entry keeps of frame ownership and of access under authority. */
module FrameSteps {
  import opened Prelude
  import opened Capabilities
  import opened FrameAllocator
  import opened WaitQueues
  import opened IpcSafety
  import M = IpcModel
  import S = IpcSteps
  import opened Loader
  import opened UserMaps
  import opened FrameWorld
  import opened FrameOwnership

  lemma DevicesSame(w: World, v: World, pool: set<nat>)
    requires Devices(w, pool) && v.bound == w.bound
    requires forall x: nat, y: nat, d: nat :: NamesDevice(CapIn(v, x, y), d) == NamesDevice(CapIn(w, x, y), d)
    ensures Devices(v, pool)
  {
  }

  /** Free frames that got a keeper. */
  lemma FramesTaken(w: World, v: World, pool: set<nat>, fs: set<nat>, to: Keeper)
    requires Ledger(w, pool) && fs <= w.avail && v.avail == w.avail - fs && to != Unused
    requires forall k: Keeper, f: nat :: k != to && k != Unused ==> Keeps(v, k, f) == Keeps(w, k, f)
    requires forall f: nat :: Keeps(v, to, f) <==> Keeps(w, to, f) || f in fs
    ensures Ledger(v, pool)
  {
    var m := Take(fs, to);
    forall l, f: nat | Keeps(v, l, f) ensures CameFrom(w, m, l, f) {
      var k := if l == to && f in fs then Unused else l;
      assert Keeps(w, k, f) && MovedTo(m, k, f) == l;
    }
    forall k, f: nat | Keeps(w, k, f) ensures Keeps(v, MovedTo(m, k, f), f) { }
    LedgerFollows(w, v, m, pool);
  }

  lemma FreshIsSane(t: Table, boot: set<nat>, pool: set<nat>)
    requires Tidy(t) && CapsApart(t, pool)
    ensures Sane(Holder(NoRecords(t), boot), pool) && forall bound :: Tethered(NoRecords(t), bound)
  {
  }

  /** A process set up with a table that names no frame and no device. */
  lemma HousedKeeps(w: World, pool: set<nat>, p: nat, t: Table, boot: set<nat>)
    requires Secure(w, pool) && p < |w.procs| && w.procs[p].None? && boot <= w.avail
    requires Tidy(t)
    requires forall s: nat :: s < MAX_CAPS && t.caps[s].Some? ==>
      t.caps[s].value.target.CpuTime? || t.caps[s].value.target.EndpointCap?
    ensures Secure(w.(procs := w.procs[p := Some(Holder(NoRecords(t), boot))], avail := w.avail - boot), pool)
  {
    hide Sane, Tethered, Devices, Ledger;
    var v := w.(procs := w.procs[p := Some(Holder(NoRecords(t), boot))], avail := w.avail - boot);
    FramesTaken(w, v, pool, boot, Loaded(p));
    DevicesSame(w, v, pool);
    FreshIsSane(t, boot, pool);
    OneSecure(w, v, p, pool);
  }

  lemma StartKeeps(w: World, pool: set<nat>, p: nat, boot: set<nat>)
    requires Secure(w, pool)
    ensures Secure(StartStep(w, p, boot), pool)
  {
    hide Secure;
    if StartStep(w, p, boot) != w { HousedKeeps(w, pool, p, M.FreshTable(), boot); }
  }

  lemma AttachKeeps(w: World, pool: set<nat>, dev: nat, b: Binding)
    requires Secure(w, pool)
    ensures Secure(AttachStep(w, pool, dev, b), pool)
  {
    hide Sane, Tethered, Ledger, BindingOk, DoorbellsDiffer;
    var v := AttachStep(w, pool, dev, b);
    if v != w {
      forall f: nat ensures f * FRAME_SIZE in DeviceFrames(b) <==> f in FramesOfDevice(b) { FrameNumberOf(b, pool, f); }
      FramesTaken(w, v, pool, FramesOfDevice(b), Device(dev));
      AttachedDevices(w, v, pool, dev, b);
      forall p: nat | Lives(v, p) ensures Sane(v.procs[p].value, pool) && Tethered(AccessOf(v, p), v.bound) {
        HolderFacts(w, pool, p);
        MoreDevicesTether(AccessOf(w, p), w.bound, v.bound);
      }
    }
  }

  lemma AttachedDevices(w: World, v: World, pool: set<nat>, dev: nat, b: Binding)
    requires Devices(w, pool) && v.procs == w.procs && v.bound == w.bound[dev := b] && dev !in w.bound
    requires BindingOk(b, pool) && DoorbellsDiffer(v.bound)
    ensures Devices(v, pool)
  {
    hide BindingOk, DoorbellsDiffer, NamesDevice, CapIn;
    forall p: nat, s: nat ensures CapIn(v, p, s) == CapIn(w, p, s) { SameProcsSameCaps(w, v, p, s); }
  }

  lemma SameProcsSameCaps(w: World, v: World, p: nat, s: nat)
    requires v.procs == w.procs
    ensures CapIn(v, p, s) == CapIn(w, p, s)
  {
  }

  lemma FrameNumberOf(b: Binding, pool: set<nat>, f: nat)
    requires BindingOk(b, pool)
    ensures f * FRAME_SIZE in DeviceFrames(b) <==> f in FramesOfDevice(b)
  {
    if f * FRAME_SIZE in DeviceFrames(b) { assert f * FRAME_SIZE / FRAME_SIZE == f; }
    if f in FramesOfDevice(b) {
      var a :| a in DeviceFrames(b) && a / FRAME_SIZE == f;
      assert a % FRAME_SIZE == 0 && a == f * FRAME_SIZE;
    }
  }

  lemma MoreDevicesTether(a: Access, bound: map<nat, Binding>, more: map<nat, Binding>)
    requires Tethered(a, bound) && forall d :: d in bound ==> d in more && more[d] == bound[d]
    ensures Tethered(a, more)
  {
    hide Loose;
    forall x: nat | Loose(a, x) ensures Tied(a, more, x) {
      assert Tied(a, bound, x);
      var s: nat :| TiedBy(a, bound, s, x);
      assert TiedBy(a, more, s, x);
    }
  }

  lemma GrantKeeps(w: World, pool: set<nat>, p: nat, dev: nat)
    requires Secure(w, pool) && Lives(w, p)
    ensures Secure(GrantStep(w, p, dev), pool)
  {
    hide Sane, Tethered, Ledger, Ties, Install, Tidy, BindingOk, DoorbellsDiffer;
    var v := GrantStep(w, p, dev);
    var cap := Capability(BoundDevice(dev), {MayMap}, None);
    assert Tidy(TableOf(w, p)) by { HolderFacts(w, pool, p); }
    InstallArrives(TableOf(w, p), cap);
    if v != w && Install(TableOf(w, p), cap).1.Some? {
      HolderFacts(w, pool, p);
      ArrivedSane(w.procs[p].value, TableOf(v, p), cap, pool);
      TetherKept(AccessOf(w, p), AccessOf(v, p), w.bound);
      forall k, f: nat ensures Keeps(v, k, f) == Keeps(w, k, f) { }
      SameKeepers(w, v, pool);
      GrantedDevices(w, v, pool, p, Install(TableOf(w, p), cap).1.value, dev);
      OneSecure(w, v, p, pool);
    }
  }

  lemma GrantedDevices(w: World, v: World, pool: set<nat>, p: nat, k: nat, dev: nat)
    requires Devices(w, pool) && v.bound == w.bound && dev in w.bound
    requires forall x: nat, y: nat, d: nat :: NamesDevice(CapIn(v, x, y), d) ==> NamesDevice(CapIn(w, x, y), d) || ((x, y) == (p, k) && d == dev)
    requires forall x: nat, y: nat :: !NamesDevice(CapIn(w, x, y), dev)
    ensures Devices(v, pool)
  {
    hide BindingOk, DoorbellsDiffer, NamesDevice, CapIn;
  }

  lemma SameKeepers(w: World, v: World, pool: set<nat>)
    requires Ledger(w, pool) && forall k: Keeper, f: nat :: Keeps(v, k, f) == Keeps(w, k, f)
    ensures Ledger(v, pool)
  {
    forall l, f: nat | Keeps(v, l, f) ensures CameFrom(w, Stay, l, f) { assert MovedTo(Stay, l, f) == l; }
    LedgerFollows(w, v, Stay, pool);
  }

  lemma GrabKeeps(w: World, pool: set<nat>, p: nat)
    requires Secure(w, pool) && Lives(w, p)
    ensures Secure(GrabStep(w, p), pool)
  {
    hide Install, Coherent, Tidy, Sane, Tethered, Ties, Devices, Ledger;
    var v := GrabStep(w, p);
    if v != w {
      HolderFacts(w, pool, p);
      var f0 := Lowest(w.avail);
      var cap := Capability(Frame(f0 * FRAME_SIZE), {MayRead, MayWrite, MayMap}, None);
      InstallArrives(TableOf(w, p), cap);
      var k0 := Install(TableOf(w, p), cap).1.value;
      FramesTaken(w, v, pool, {f0}, InSlot(p, k0));
      DevicesSame(w, v, pool);
      ArrivedSane(w.procs[p].value, TableOf(v, p), cap, pool);
      TetherKept(AccessOf(w, p), AccessOf(v, p), w.bound);
      OneSecure(w, v, p, pool);
    }
  }

  lemma BestowKeeps(w: World, pool: set<nat>, p: nat, cap: Capability)
    requires Secure(w, pool) && Lives(w, p) && !cap.target.Frame? && !cap.target.BoundDevice? && Apart(cap.target, pool)
    ensures Secure(BestowStep(w, p, cap), pool)
  {
    hide Install, Coherent, Tidy, Sane, Tethered, Ties, Devices, Ledger;
    HolderFacts(w, pool, p);
    InstallArrives(TableOf(w, p), cap);
    var a := AccessOf(BestowStep(w, p, cap), p);
    ArrivedSane(w.procs[p].value, a.table, cap, pool);
    QuietStep(w, pool, p, a);
  }

  lemma MapKeeps(w: World, pool: set<nat>, p: nat, a: Access)
    requires Secure(w, pool) && Lives(w, p) && Coherent(a) && a.table == TableOf(w, p) && SameLoose(AccessOf(w, p), a)
    ensures Secure(WithAccess(w, p, a), pool)
  {
    hide Coherent, Tidy, Tethered, Devices, Ledger, SameLoose;
    HolderFacts(w, pool, p);
    assert Ties(AccessOf(w, p), a);
    QuietStep(w, pool, p, a);
  }

  lemma BindTethers(a: Access, bound: map<nat, Binding>, slot: nat, va: nat, infoOk: bool, room: bool)
    requires Coherent(a) && Tethered(a, bound)
    ensures Tethered(BindStep(a, bound, slot, va, infoOk, room).0, bound)
  {
    hide Coherent, Loose, MapsThese, FreeSpan;
    var (b, ok) := BindStep(a, bound, slot, va, infoOk, room);
    BindIsLoose(a, bound, slot, va, infoOk, room);
    if ok {
      forall x: nat | Loose(b, x) ensures Tied(b, bound, x) {
        if InStretch(x, va, BIND_PAGES) {
          assert TiedBy(b, bound, slot, x);
        } else {
          LooseIsMapped(a, x);
          assert Tied(a, bound, x);
          var s: nat :| TiedBy(a, bound, s, x);
          assert TiedBy(b, bound, s, x);
        }
      }
    }
  }

  lemma LooseIsMapped(a: Access, x: nat)
    requires Loose(a, x)
    ensures x in a.pages
  {
  }

  /** `bind_device`: the pages it maps are those of a device whose capability the
      process holds. */
  lemma BindKeeps(w: World, pool: set<nat>, p: nat, slot: nat, va: nat, infoOk: bool, room: bool)
    requires Secure(w, pool) && Lives(w, p)
    ensures Secure(WithAccess(w, p, BindStep(AccessOf(w, p), w.bound, slot, va, infoOk, room).0), pool)
  {
    hide Coherent, Tidy, Devices, Ledger, Loose, Tethered, BindStep;
    HolderFacts(w, pool, p);
    var a := AccessOf(w, p);
    var b := BindStep(a, w.bound, slot, va, infoOk, room).0;
    BindIsLoose(a, w.bound, slot, va, infoOk, room);
    BindTethers(a, w.bound, slot, va, infoOk, room);
    var v := WithAccess(w, p, b);
    SameKeepers(w, v, pool);
    DevicesSame(w, v, pool);
    OneSecure(w, v, p, pool);
  }
}
