/** `spawn_scheduled` as the kernel runs it, failure branch included, proved to take
    the step of `IpcModel` (kernel/src/syscall.rs, kernel/src/scheduler.rs). */
module IpcSpawn {
  import opened Prelude
  import opened Capabilities
  import opened WaitQueues
  import opened IpcModel
  import opened IpcSafety
  import opened IpcSteps
  import opened IpcKernel

  lemma {:induction false} FreeEndpointIs(eps: seq<Endpoint>, from: nat, i: nat)
    requires from <= i < |eps| && !eps[i].inUse && forall k :: from <= k < i ==> eps[k].inUse
    ensures FreeEndpoint(eps, from) == Some(i)
    decreases i - from
  {
    if from < i { FreeEndpointIs(eps, from + 1, i); }
  }

  lemma {:induction false} FreeProcIs(procs: seq<Proc>, from: nat, i: nat)
    requires from <= i < |procs| && procs[i].run.Empty? && forall k :: from <= k < i ==> !procs[k].run.Empty?
    ensures FreeProc(procs, from) == Some(i)
    decreases i - from
  {
    if from < i { FreeProcIs(procs, from + 1, i); }
  }

  /** `create_endpoint`. */
  method NewEndpoint(k: Kernel) returns (id: Option<nat>)
    requires k.Valid() && Inv(k.View())
    modifies k.Repr()
    ensures k.Valid() && id == FreeEndpoint(old(k.View()).eps) && k.View() == CreateEndpoint(old(k.View()))
  {
    hide Inv, Kernel.Valid, Kernel.View;
    var i: nat := 0;
    while i < MAX_ENDPOINTS
      invariant k.Valid() && k.View() == old(k.View())
      invariant i <= MAX_ENDPOINTS && forall j :: 0 <= j < i ==> k.View().eps[j].inUse
    {
      var c := k.Counts(i);
      if !c.inUse {
        FreeEndpointIs(k.View().eps, 0, i);
        FreeIsBlank(k.View(), i);
        k.SetCounts(i, Counter(true, 0, 0));
        return Some(i);
      }
      i := i + 1;
    }
    return None;
  }

  lemma FreeIsBlank(st: State, id: Eid)
    requires Inv(st) && !st.eps[id].inUse
    ensures st.eps[id] == NoEndpoint()
  {
    SpareIsBlank(st.tables, st.eps, id);
  }

  /** `find_free_slot`. */
  method FreeSlot(k: Kernel) returns (p: Option<nat>)
    requires k.Valid()
    ensures p == FreeProc(k.View().procs)
  {
    for i := 0 to MAX_PROCESSES
      invariant forall j :: 0 <= j < i ==> !k.procs[j].run.Empty?
    {
      if k.procs[i].run.Empty? {
        FreeProcIs(k.procs[..], 0, i);
        return Some(i);
      }
    }
    return None;
  }

  /** One grant to a process being set up: installed and counted. */
  method Grant(k: Kernel, c: Pid, cap: Capability, ghost slot: nat)
    requires k.Valid() && FirstFree(k.View().tables[c]) == Some(slot)
    modifies k.Repr()
    ensures k.Valid()
    ensures k.View() == WithTable(old(k.View()), c, Put(old(k.View()).tables[c], slot, cap)).(eps := Noted(old(k.View()).eps, cap))
  {
    hide Kernel.View, Kernel.Valid, Noted, FirstFree;
    var _ := k.Place(c, cap);
    k.NoteAdded(cap);
  }

  function Budget(): Capability { Capability(CpuTime(INITIAL_CPU_BUDGET), {MayConsume}, None) }

  /** What `setup_process` leaves in slot `c`. */
  function Launched(st: State, c: Pid, send: Capability, lent: Option<Capability>): State {
    var granted := Put(FreshTable(), 1, send);
    var started := Happened(st.(procs := st.procs[c := NoProc().(run := Ready)]), c, Started);
    match lent
    case None => started.(tables := st.tables[c := granted], eps := Noted(st.eps, send))
    case Some(cap) => started.(tables := st.tables[c := Put(granted, 2, cap)], eps := Noted(Noted(st.eps, send), cap))
  }

  lemma GrantsLandInOrder(send: Capability)
    ensures FirstFree(NoCaps()) == Some(0)
    ensures FirstFree(FreshTable()) == Some(1)
    ensures FirstFree(Put(FreshTable(), 1, send)) == Some(2)
  {
    FirstFreeIs(NoCaps(), 0, 0);
    FirstFreeIs(FreshTable(), 0, 1);
    FirstFreeIs(Put(FreshTable(), 1, send), 0, 2);
  }

  method SetUp(k: Kernel, c: Pid, send: Capability, lent: Option<Capability>)
    requires k.Valid() && k.View().tables[c] == NoCaps()
    modifies k.Repr()
    ensures k.Valid() && k.View() == Launched(old(k.View()), c, send, lent)
  {
    hide Kernel.View, Kernel.Valid, FirstFree;
    GrantsLandInOrder(send);
    Grant(k, c, Budget(), 0);
    Grant(k, c, send, 1);
    if lent.Some? {
      Grant(k, c, lent.value, 2);
    }
    k.SetProc(c, NoProc().(run := Ready));
    k.Record(c, Started);
    assert k.View() == Launched(old(k.View()), c, send, lent);
  }

  /** The caller's capability back in its own slot, its reservation lifted. */
  method PutBack(k: Kernel, p: Pid, slot: nat, cap: Capability)
    requires k.Valid() && slot < MAX_CAPS
    modifies k.Repr()
    ensures k.Valid() && k.View() == WithTable(old(k.View()), p, TakenBack(old(k.View()).tables[p], slot, cap))
  {
    k.tables[p].PutBack(slot, cap);
    k.TablesChanged(p);
  }

  /** `release_endpoint`. */
  method ReleaseEndpoint(k: Kernel, id: Eid)
    requires k.Valid()
    modifies k.Repr()
    ensures k.Valid()
    ensures k.View() == var eps := old(k.View()).eps;
      old(k.View()).(eps := eps[id := if Unreferenced(eps[id]) then NoEndpoint() else eps[id]])
  {
    hide Kernel.View, Kernel.Valid;
    var c := k.Counts(id);
    var nobody := k.QueueIsEmpty(id);
    if c.senders == 0 && c.receivers == 0 && nobody {
      k.Free(id);
    }
  }

  function TakenFor(st: State, cur: Pid, transfer: Option<nat>): Option<Capability> {
    if transfer.Some? then Held(st.tables[cur], transfer.value) else None
  }

  /** The result endpoint exists, and what the caller gives has left its table. */
  function Begun(st: State, cur: Pid, transfer: Option<nat>, ep: Eid): State {
    var opening := st.eps[ep := NoEndpoint().(inUse := true)];
    match TakenFor(st, cur, transfer)
    case None => st.(eps := opening)
    case Some(cap) => st.(tables := st.tables[cur := LentFrom(st.tables[cur], transfer.value)], eps := Unnoted(opening, cap))
  }

  method Begin(k: Kernel, cur: Pid, transfer: Option<nat>) returns (ep: Option<nat>, taken: Option<Capability>)
    requires k.Valid() && Inv(k.View())
    modifies k.Repr()
    ensures k.Valid() && ep == FreeEndpoint(old(k.View()).eps) && taken == (if ep.Some? then TakenFor(old(k.View()), cur, transfer) else None)
    ensures k.View() == if ep.Some? then Begun(old(k.View()), cur, transfer, ep.value) else old(k.View())
  {
    hide Kernel.View, Kernel.Valid, Inv, Unnoted, LentFrom, FreeEndpoint;
    taken := None;
    ep := NewEndpoint(k);
    if ep.Some? && transfer.Some? {
      taken := k.TakeForLend(cur, transfer.value);
      if taken.Some? {
        k.Uncount(taken.value);
      }
    }
  }

  /** A spawn that came to nothing: the endpoint goes, and the capability comes back. */
  method Abandon(k: Kernel, ghost st: State, cur: Pid, transfer: Option<nat>, loads: bool, ep: Eid, taken: Option<Capability>)
    requires k.Valid() && k.View() == Begun(st, cur, transfer, ep) && Some(ep) == FreeEndpoint(st.eps)
    requires taken == TakenFor(st, cur, transfer) && (FreeProc(st.procs).None? || !loads)
    modifies k.Repr()
    ensures k.Valid() && (k.View(), None) == SpawnStep(st, cur, transfer, loads)
  {
    hide Kernel.View, Kernel.Valid, Noted, Unnoted, LentFrom, TakenBack, FreeEndpoint, FreeProc;
    ReleaseEndpoint(k, ep);
    if taken.Some? {
      ghost var gone := LentFrom(st.tables[cur], transfer.value);
      Overwritten(st.tables, cur, gone, TakenBack(gone, transfer.value, taken.value));
      PutBack(k, cur, transfer.value, taken.value);
      k.NoteAdded(taken.value);
    }
  }

  /** The child, and the caller's half of the result channel. */
  method Finish(k: Kernel, ghost st: State, cur: Pid, transfer: Option<nat>, ep: Eid, taken: Option<Capability>, c: Pid)
    returns (handle: Option<nat>)
    requires k.Valid() && k.View() == Begun(st, cur, transfer, ep) && Some(ep) == FreeEndpoint(st.eps)
    requires taken == TakenFor(st, cur, transfer) && FreeProc(st.procs) == Some(c)
    requires c != cur && st.tables[c] == NoCaps()
    modifies k.Repr()
    ensures k.Valid() && (k.View(), handle) == SpawnStep(st, cur, transfer, true)
  {
    hide Kernel.View, Kernel.Valid, Noted, Unnoted, LentFrom, Install, Put, FreeEndpoint, FreeProc;
    var lent := if taken.Some? then Some(LentToChild(taken.value, Origin(cur, transfer.value))) else None;
    SetUp(k, c, ResultSend(ep), lent);
    if taken.Some? { LoanCountsAlike(Noted(Begun(st, cur, transfer, ep).eps, ResultSend(ep)), taken.value, Origin(cur, transfer.value)); }
    var recv := Capability(EndpointCap(ep), {MayRecv}, None);
    ghost var mine, theirs := Begun(st, cur, transfer, ep).tables[cur], k.View().tables[c];
    Reordered(st.tables, cur, c, mine, theirs, Install(mine, recv).0);
    handle := k.Place(cur, recv);
    if handle.Some? {
      k.NoteAdded(recv);
    }
  }

  lemma Overwritten(tables: seq<Table>, i: nat, x: Table, y: Table)
    requires i < |tables|
    ensures tables[i := x][i := y] == tables[i := y]
  {
  }

  lemma Reordered(tables: seq<Table>, i: nat, j: nat, x: Table, y: Table, z: Table)
    requires i < |tables| && j < |tables| && i != j
    ensures tables[i := x][j := y][i := z] == tables[i := z][j := y]
    ensures tables[j := y][i := z] == tables[i := z][j := y]
  {
  }

  lemma LoanCountsAlike(eps: seq<Endpoint>, cap: Capability, source: Origin)
    ensures Noted(eps, LentToChild(cap, source)) == Noted(eps, cap)
  {
  }

  lemma EmptySlotsAreBare(st: State, c: Pid, cur: Pid)
    requires Inv(st) && st.procs[c].run.Empty? && st.procs[cur].run.Ready?
    ensures c != cur && st.tables[c] == NoCaps()
  {
  }

  /** `spawn_scheduled`; `loads` says whether the image could be loaded. */
  method Spawn(k: Kernel, cur: Pid, transfer: Option<nat>, loads: bool) returns (handle: Option<nat>)
    requires k.Valid() && Inv(k.View()) && k.View().procs[cur].run.Ready?
    modifies k.Repr()
    ensures k.Valid() && Inv(k.View())
    ensures (k.View(), handle) == SpawnStep(old(k.View()), cur, transfer, loads)
  {
    hide Kernel.View, Kernel.Valid, Inv, FreeEndpoint, FreeProc, Begun, LentFrom;
    ghost var st := k.View();
    SpawnKeeps(st, cur, transfer, loads);
    var ep, taken := Begin(k, cur, transfer);
    if ep.None? {
      return None;
    }
    assert k.View().procs == st.procs by { BegunProcs(st, cur, transfer, ep.value); }
    var child := FreeSlot(k);
    if child.None? || !loads {
      Abandon(k, st, cur, transfer, loads, ep.value, taken);
      return None;
    }
    EmptySlotsAreBare(st, child.value, cur);
    handle := Finish(k, st, cur, transfer, ep.value, taken, child.value);
  }

  lemma BegunProcs(st: State, cur: Pid, transfer: Option<nat>, ep: Eid)
    ensures Begun(st, cur, transfer, ep).procs == st.procs
  {
  }
}
