/** Every step of the IPC machine keeps the invariant, so every run does; and what
    each step does for the process it wakes. */
module IpcSteps {
  import opened Prelude
  import opened Capabilities
  import opened WaitQueues
  import opened IpcModel
  import opened IpcSafety

  lemma SendKeeps(st: State, cur: Pid, slot: nat, msg: nat, cap: Option<nat>)
    requires Inv(st) && st.procs[cur].run.Ready?
    ensures Inv(SendStep(st, cur, slot, msg, cap).0)
  {
    hide Counts, AllPaired, WaitersHold, Replies, TablesTidy, HoldsRight, Transfer, InTransit, PhaseOf;
    var at := EndpointAt(st, cur, slot, MaySend);
    if at.Some? {
      var id := at.value;
      assert Lawful(st, cur);
      if Peer(st, id, false).Some? {
        var x := st.eps[id].queue[0];
        var taken := Popped(st, id);
        PopKeeps(st, id, false);
        StillFree(st, id, cur, x);
        var moved := if cap.Some? then Transfer(taken, cur, cap.value, x).0 else taken;
        if cap.Some? { TransferKeeps(taken, x, cur, cap.value, x); }
        WakeKeeps(moved, x, SendStep(st, cur, slot, msg, cap).0.procs[x].frame, Rendezvous);
      } else if st.eps[id].receivers > 0 {
        HoldsHere(st.tables[cur], slot, id, MaySend);
        ParkInQueueKeeps(st, cur, id, true, st.procs[cur].(msg := msg, cap := cap, isCall := false), ParkedInQueue);
      }
    }
  }

  lemma HoldsHere(t: Table, slot: nat, id: nat, right: Right)
    requires slot < MAX_CAPS && Names(t.caps[slot], id, right)
    ensures HoldsRight(t, id, right)
  {
  }

  /** With the head of a queue taken, neither it nor a running process is queued. */
  lemma StillFree(st: State, id: Eid, cur: Pid, x: Pid)
    requires Inv(st) && st.procs[cur].run.Ready? && st.eps[id].queue != [] && st.eps[id].queue[0] == x
    requires InTransit(Popped(st, id), x)
    ensures cur != x && !Queued(Popped(st, id).eps, x) && !Queued(Popped(st, id).eps, cur)
    ensures st.procs[x].run.Blocked? && Popped(st, id).procs == st.procs
  {
    hide Counts, AllPaired, WaitersHold, Replies, TablesTidy;
    assert Lawful(st, cur);
    assert x in st.eps[id].queue;
  }

  lemma RecvKeeps(st: State, cur: Pid, slot: nat)
    requires Inv(st) && st.procs[cur].run.Ready?
    ensures Inv(RecvStep(st, cur, slot).0)
  {
    hide Counts, AllPaired, WaitersHold, Replies, TablesTidy, HoldsRight, Transfer, InTransit, PhaseOf, Install;
    var at := EndpointAt(st, cur, slot, MayRecv);
    if at.Some? {
      var id := at.value;
      assert Lawful(st, cur);
      if Peer(st, id, true).Some? {
        var x := st.eps[id].queue[0];
        var taken := Popped(st, id);
        PopKeeps(st, id, true);
        StillFree(st, id, cur, x);
        if st.procs[x].isCall {
          HandOverKeeps(taken, x, cur);
        } else {
          var cap := st.procs[x].cap;
          var moved := if cap.Some? then Transfer(taken, x, cap.value, cur).0 else taken;
          if cap.Some? { TransferKeeps(taken, x, x, cap.value, cur); }
          WakeKeeps(moved, x, Answer(Delivered, Some(0), None), Rendezvous);
        }
      } else if st.eps[id].senders > 0 {
        HoldsHere(st.tables[cur], slot, id, MayRecv);
        ParkInQueueKeeps(st, cur, id, false, st.procs[cur], ParkedInQueue);
        assert st.(procs := st.procs[cur := st.procs[cur]]) == st;
      } else {
        LandingAside(st, cur);
      }
    }
  }

  lemma LandingAside(st: State, p: Pid)
    requires Inv(st)
    ensures Inv(TakeLanding(st, p))
  {
    hide CountsAgree, NoneDangle, AllPaired, WaitersHold, RepliesUnique, RepliesOwed, Tidy, PhaseOf;
    forall q: Pid ensures Lawful(TakeLanding(st, p), q) {
      StandingKeepsLawful(st, TakeLanding(st, p), q);
    }
  }

  lemma CallKeeps(st: State, cur: Pid, slot: nat, req: nat)
    requires Inv(st) && st.procs[cur].run.Ready?
    ensures Inv(CallStep(st, cur, slot, req).0)
  {
    hide Counts, AllPaired, WaitersHold, Replies, TablesTidy, HoldsRight, InTransit, PhaseOf, Install;
    var at := EndpointAt(st, cur, slot, MaySend);
    if at.Some? {
      var id := at.value;
      assert Lawful(st, cur);
      if Peer(st, id, false).Some? {
        var x := st.eps[id].queue[0];
        var taken := Popped(st, id);
        PopKeeps(st, id, false);
        StillFree(st, id, cur, x);
        var told := Wake(taken, x, CallStep(st, cur, slot, req).0.procs[x].frame, Rendezvous);
        WakeKeeps(taken, x, told.procs[x].frame, Rendezvous);
        ParkTransit(told, cur);
        HandOverKeeps(Park(told, cur, ParkedCalling), cur, x);
      } else if st.eps[id].receivers > 0 {
        HoldsHere(st.tables[cur], slot, id, MaySend);
        ParkInQueueKeeps(st, cur, id, true, st.procs[cur].(msg := req, cap := None, isCall := true), ParkedCalling);
      }
    }
  }

  /** The caller a reply capability names is blocked, waiting for exactly that reply,
      so an answer is never refused as stale. */
  lemma ReplyFindsItsCaller(st: State, cur: Pid, slot: nat, c: nat)
    requires Inv(st) && slot < MAX_CAPS && RepliesTo(st.tables[cur].caps[slot], c)
    ensures c < MAX_PROCESSES && st.procs[c].run.Blocked? && !Queued(st.eps, c) && PhaseOf(st.history[c]) == Owed
    ensures forall q: Pid, k :: 0 <= k < MAX_CAPS && RepliesTo(st.tables[q].caps[k], c) ==> q == cur && k == slot
  {
    ReplyIsOwed(st.tables, st.history, cur, slot, c);
    assert Lawful(st, c);
  }

  lemma ReplyKeeps(st: State, cur: Pid, slot: nat, msg: nat)
    requires Inv(st) && st.procs[cur].run.Ready?
    ensures Inv(ReplyStep(st, cur, slot, msg).0)
    ensures ReplyStep(st, cur, slot, msg).1 == Some(Answer(
      if slot < MAX_CAPS && st.tables[cur].caps[slot].Some? && st.tables[cur].caps[slot].value.target.ReplyTo?
      then Delivered else Failed, None, None))
  {
    hide Naming, Names, HoldsRight, CountsAgree, NoneDangle, PhaseOf, AllPaired, Tidy;
    var held := Held(st.tables[cur], slot);
    if held.Some? && held.value.target.ReplyTo? {
      var c := held.value.target.caller;
      ReplyFindsItsCaller(st, cur, slot, c);
      assert Lawful(st, cur);
      var st' := ReplyStep(st, cur, slot, msg).0;
      PhaseStep(st.history[c], Replied);
      CountsAside(st.tables, st'.tables, cur, slot, st.eps);
      forall p: nat, s: nat, d: nat | p < MAX_PROCESSES && s < MAX_CAPS && RepliesTo(st'.tables[p].caps[s], d)
        ensures AwaitsReply(st'.history, d)
      {
        ReplyIsOwed(st.tables, st.history, p, s, d);
      }
      forall p: Pid ensures Lawful(st', p) {
        if p != c { StandingKeepsLawful(st, st', p); }
      }
      TidyWithout(st.tables[cur], slot);
    }
  }

  lemma TidyWithout(t: Table, slot: nat)
    requires Tidy(t) && slot < MAX_CAPS
    ensures Tidy(Without(t, slot))
  {
  }

  // ----- minting, spawning, releasing -----

  /** Rearranging tables by one duty, leaving every waiter what it held. */
  lemma MovedInv(st: State, tables: seq<Table>, p: Pid, s: nat, q: Pid, k: nat)
    requires Inv(st) && |tables| == MAX_PROCESSES && Moved(st.tables, tables, p, s, q, k)
    requires forall x: Pid :: Queued(st.eps, x) ==> KeepsDuties(st.tables[x], tables[x])
    requires forall x: Pid :: Tidy(tables[x]) && (st.procs[x].run.Empty? ==> tables[x] == NoCaps())
    ensures Inv(st.(tables := tables))
  {
    hide Moved, CountsAgree, NoneDangle, RepliesUnique, RepliesOwed, Tidy, HoldsRight, Duty, KeepsDuties, PhaseOf;
    var st' := st.(tables := tables);
    MovedKeeps(st.tables, tables, st.eps, st.history, p, s, q, k);
    forall id: Eid, i | 0 <= i < |st.eps[id].queue|
      ensures HoldsRight(tables[st.eps[id].queue[i]], id, Side(st.eps[id].areSenders))
    {
      var x := st.eps[id].queue[i];
      assert x in st.eps[id].queue;
      HoldsStill(st.tables[x], tables[x], id, Side(st.eps[id].areSenders));
    }
    forall x: Pid ensures Lawful(st', x) { StandingKeepsLawful(st, st', x); }
  }

  lemma CreateKeeps(st: State, id: Eid)
    requires Inv(st) && !st.eps[id].inUse
    ensures Inv(st.(eps := st.eps[id := NoEndpoint().(inUse := true)]))
  {
    hide Naming, HoldsRight, RepliesUnique, RepliesOwed, Tidy, PhaseOf;
    var st' := st.(eps := st.eps[id := NoEndpoint().(inUse := true)]);
    assert st.eps[id] == NoEndpoint();
    forall p, s | 0 <= p < MAX_PROCESSES && 0 <= s < MAX_CAPS ensures NamesLive(st.tables[p].caps[s], st'.eps) {
      assert NamesLive(st.tables[p].caps[s], st.eps);
    }
    assert Queues(st'.eps) == Queues(st.eps);
    forall x: Pid ensures Lawful(st', x) { StandingKeepsLawful(st, st', x); }
  }

  /** A kernel mint of anything but a reply, into a free slot of a live process. */
  lemma MintKeeps(st: State, p: Pid, k: nat, cap: Capability)
    requires Inv(st) && k < MAX_CAPS && Available(st.tables[p], k) && !st.procs[p].run.Empty?
    requires MayMint(st, cap.target, cap.rights)
    ensures Inv(st.(tables := st.tables[p := Put(st.tables[p], k, cap)], eps := Noted(st.eps, cap)))
  {
    hide Naming, HoldsRight, PhaseOf, Duty;
    var table := Put(st.tables[p], k, cap);
    var st' := st.(tables := st.tables[p := table], eps := Noted(st.eps, cap));
    forall id | 0 <= id < MAX_ENDPOINTS
      ensures st'.eps[id].senders == |Naming(st'.tables, id, MaySend)|
      ensures st'.eps[id].receivers == |Naming(st'.tables, id, MayRecv)|
    {
      CountOneSlot(st.tables, st'.tables, p, k, id, MaySend);
      CountOneSlot(st.tables, st'.tables, p, k, id, MayRecv);
    }
    forall x, y | 0 <= x < MAX_PROCESSES && 0 <= y < MAX_CAPS ensures NamesLive(st'.tables[x].caps[y], st'.eps) {
      assert NamesLive(st.tables[x].caps[y], st.eps);
    }
    MintWaiters(st, p, k, cap);
    forall x: nat, y: nat, d: nat | x < MAX_PROCESSES && y < MAX_CAPS && RepliesTo(st'.tables[x].caps[y], d)
      ensures RepliesTo(st.tables[x].caps[y], d)
    {
    }
    forall x: Pid ensures Lawful(st', x) { StandingKeepsLawful(st, st', x); }
  }

  lemma MintWaiters(st: State, p: Pid, k: nat, cap: Capability)
    requires Inv(st) && k < MAX_CAPS && Available(st.tables[p], k)
    ensures Waiters(st.(tables := st.tables[p := Put(st.tables[p], k, cap)], eps := Noted(st.eps, cap)))
  {
    hide Counts, Replies, AllLawful, TablesTidy;
    var eps := Noted(st.eps, cap);
    assert forall id: Eid :: eps[id].queue == st.eps[id].queue;
    assert Queues(eps) == Queues(st.eps);
    var t, t' := st.tables[p], Put(st.tables[p], k, cap);
    assert KeepsDuties(t, t');
    forall id: Eid, i | 0 <= i < |st.eps[id].queue| && st.eps[id].queue[i] == p
      ensures HoldsRight(t', id, Side(st.eps[id].areSenders))
    {
      HoldsStill(t, t', id, Side(st.eps[id].areSenders));
    }
  }

  lemma BootKeeps(st: State, p: Pid)
    requires Inv(st) && st.procs[p].run.Empty?
    ensures Inv(Happened(st.(procs := st.procs[p := NoProc().(run := Ready)], tables := st.tables[p := FreshTable()]), p, Started))
  {
    hide Naming, HoldsRight, PhaseOf, CountsAgree, NoneDangle;
    var st' := Happened(st.(procs := st.procs[p := NoProc().(run := Ready)], tables := st.tables[p := FreshTable()]), p, Started);
    assert Lawful(st, p);
    PhaseStep(st.history[p], Started);
    CountsAside(st.tables, st'.tables, p, 0, st.eps);
    OwedElsewhere(st.tables, st.history, p, st'.history[p]);
    forall x: nat, y: nat, d: nat | x < MAX_PROCESSES && y < MAX_CAPS && RepliesTo(st'.tables[x].caps[y], d)
      ensures RepliesTo(st.tables[x].caps[y], d)
    {
    }
    forall x: Pid ensures Lawful(st', x) {
      if x != p { StandingKeepsLawful(st, st', x); }
    }
  }

  /** A failed spawn gives the capability back, always, and to its own slot exactly
      when that slot was reserved for the loan or no earlier slot is free. */
  lemma TakenBackWhere(t: Table, slot: nat) returns (k: nat)
    requires Tidy(t) && slot < MAX_CAPS && t.caps[slot].Some?
    ensures var cap := t.caps[slot].value;
            var back := TakenBack(LentFrom(t, slot), slot, cap);
            && Tidy(back)
            && (back == t <==> LendReserves(cap) || forall i :: 0 <= i < slot ==> !Available(t, i))
            && k <= slot && (k == slot || Available(t, k))
            && back == Slots(t.caps[slot := None][k := Some(cap)], t.reserved)
  {
    var cap := t.caps[slot].value;
    var without := LentFrom(t, slot);
    var back := TakenBack(without, slot, cap);
    if LendReserves(cap) {
      k := slot;
      assert back == t && t.caps[slot := None][slot := Some(cap)] == t.caps;
    } else {
      assert without.reserved[slot := false] == without.reserved;
      assert Available(without, slot);
      k := FirstFree(without).value;
      assert forall i :: 0 <= i < slot ==> (Available(t, i) <==> Available(without, i));
      assert back == Slots(t.caps[slot := None][k := Some(cap)], t.reserved);
      if k == slot {
        assert t.caps[slot := None][slot := Some(cap)] == t.caps;
      }
    }
  }

  /** The counters after a capability left `cur` while `ep` was being opened. */
  lemma SpawnCounters(eps: seq<Endpoint>, tables: seq<Table>, ep: Eid, p: nat, s: nat)
    requires |eps| == MAX_ENDPOINTS && CountsAgree(tables, eps) && NoneDangle(tables, eps) && !eps[ep].inUse
    requires p < |tables| && s < MAX_CAPS && tables[p].caps[s].Some?
    ensures var cap := tables[p].caps[s].value;
            var send := Capability(EndpointCap(ep), {MaySend}, None);
            var opening := eps[ep := NoEndpoint().(inUse := true)];
            var out := Unnoted(opening, cap);
            && Unreferenced(out[ep]) && Noted(out[ep := NoEndpoint()], cap) == eps
            && Noted(Noted(out, send), cap) == Noted(opening, send)
  {
    hide CountsAgree, NoneDangle;
    var cap := tables[p].caps[s].value;
    TransitNetsToZero(tables, eps, p, s);
    assert eps[ep] == NoEndpoint() by { SpareIsBlank(tables, eps, ep); }
    assert NamesLive(Some(cap), eps) by { NameIsLive(tables, eps, p, s); }
    assert cap.target.EndpointCap? ==> cap.target.id != ep;
  }

  lemma NameIsLive(tables: seq<Table>, eps: seq<Endpoint>, p: nat, s: nat)
    requires NoneDangle(tables, eps) && p < |tables| && s < MAX_CAPS
    ensures NamesLive(tables[p].caps[s], eps)
  {
  }

  lemma FailedSpawnKeeps(st: State, cur: Pid, transfer: Option<nat>, loads: bool)
    requires Inv(st) && st.procs[cur].run.Ready? && FreeEndpoint(st.eps).Some? && (FreeProc(st.procs).None? || !loads)
    ensures Inv(SpawnStep(st, cur, transfer, loads).0)
    ensures SpawnStep(st, cur, transfer, loads).1.None?
    ensures var st' := SpawnStep(st, cur, transfer, loads).0;
            st'.eps == st.eps && st'.procs == st.procs && st'.history == st.history
  {
    hide Naming, Waiters, Replies, AllLawful, Tidy, CountsAgree, NoneDangle;
    var ep := FreeEndpoint(st.eps).value;
    SpareIsBlank(st.tables, st.eps, ep);
    var st' := SpawnStep(st, cur, transfer, loads).0;
    if transfer.Some? && Held(st.tables[cur], transfer.value).Some? {
      var slot := transfer.value;
      var t := st.tables[cur];
      SpawnCounters(st.eps, st.tables, ep, cur, slot);
      var k := TakenBackWhere(t, slot);
      var back := TakenBack(LentFrom(t, slot), slot, t.caps[slot].value);
      MovedBack(st.tables, cur, slot, k, back);
      NotQueued(st, cur);
      MovedInv(st, st.tables[cur := back], cur, slot, cur, k);
    } else {
      assert st' == st;
    }
  }

  lemma NotQueued(st: State, p: Pid)
    requires AllLawful(st) && !st.procs[p].run.Blocked?
    ensures !Queued(st.eps, p)
  {
    assert Lawful(st, p);
  }

  function ResultSend(ep: Eid): Capability { Capability(EndpointCap(ep), {MaySend}, None) }

  /** The child running with its half of the result channel, before anything of the
      caller's has moved. */
  function ChildStarted(st: State, c: Pid, ep: Eid): State {
    Happened(Machine(st.tables[c := Put(FreshTable(), 1, ResultSend(ep))], st.procs[c := NoProc().(run := Ready)],
                     Noted(st.eps[ep := NoEndpoint().(inUse := true)], ResultSend(ep)), st.history), c, Started)
  }

  lemma ChildStartKeeps(st: State, c: Pid, ep: Eid)
    requires Inv(st) && st.procs[c].run.Empty? && !st.eps[ep].inUse
    ensures Inv(ChildStarted(st, c, ep))
  {
    hide Inv;
    var s1 := st.(eps := st.eps[ep := NoEndpoint().(inUse := true)]);
    CreateKeeps(st, ep);
    var s2 := Happened(s1.(procs := s1.procs[c := NoProc().(run := Ready)], tables := s1.tables[c := FreshTable()]), c, Started);
    BootKeeps(s1, c);
    MintKeeps(s2, c, 1, ResultSend(ep));
    assert st.tables[c := FreshTable()][c := Put(FreshTable(), 1, ResultSend(ep))] == st.tables[c := Put(FreshTable(), 1, ResultSend(ep))];
  }

  /** The caller's capability moves into the child's next slot. */
  lemma ChildGiftKeeps(st: State, cur: Pid, slot: nat, c: Pid, table: Table)
    requires Inv(st) && !st.procs[cur].run.Blocked? && !st.procs[cur].run.Empty? && cur != c && st.procs[c].run.Ready?
    requires slot < MAX_CAPS && st.tables[cur].caps[slot].Some? && Available(st.tables[c], 2)
    requires var cap := st.tables[cur].caps[slot].value; table == Put(st.tables[c], 2, LentToChild(cap, Origin(cur, slot)))
    ensures Inv(st.(tables := st.tables[cur := LentFrom(st.tables[cur], slot)][c := table]))
  {
    hide Moved, Counts, Waiters, Replies;
    var without := LentFrom(st.tables[cur], slot);
    NotQueued(st, cur);
    NotQueued(st, c);
    assert without.caps == st.tables[cur].caps[slot := None];
    MovedAcross(st.tables, cur, slot, c, 2, without, table);
    MovedInv(st, st.tables[cur := without][c := table], cur, slot, c, 2);
  }

  lemma SpawnKeeps(st: State, cur: Pid, transfer: Option<nat>, loads: bool)
    requires Inv(st) && st.procs[cur].run.Ready?
    ensures Inv(SpawnStep(st, cur, transfer, loads).0)
  {
    if FreeEndpoint(st.eps).Some? {
      if FreeProc(st.procs).None? || !loads {
        FailedSpawnKeeps(st, cur, transfer, loads);
      } else {
        LaunchKeeps(st, cur, transfer);
      }
    }
  }

  /** The child running and holding what it was given; the caller's handle not yet
      minted. */
  function ChildReady(st: State, cur: Pid, transfer: Option<nat>, c: Pid, ep: Eid): State {
    var s1 := ChildStarted(st, c, ep);
    if transfer.None? || Held(st.tables[cur], transfer.value).None? then s1
    else
      var given := LentToChild(st.tables[cur].caps[transfer.value].value, Origin(cur, transfer.value));
      s1.(tables := s1.tables[cur := LentFrom(st.tables[cur], transfer.value)][c := Put(s1.tables[c], 2, given)])
  }

  lemma ChildReadyKeeps(st: State, cur: Pid, transfer: Option<nat>, c: Pid, ep: Eid)
    requires Inv(st) && st.procs[cur].run.Ready? && st.procs[c].run.Empty? && !st.eps[ep].inUse
    ensures Inv(ChildReady(st, cur, transfer, c, ep))
  {
    hide Inv, LentFrom, LentToChild;
    ChildStartKeeps(st, c, ep);
    var s1 := ChildStarted(st, c, ep);
    if transfer.Some? && Held(st.tables[cur], transfer.value).Some? {
      var slot := transfer.value;
      ChildGiftKeeps(s1, cur, slot, c, Put(s1.tables[c], 2, LentToChild(st.tables[cur].caps[slot].value, Origin(cur, slot))));
    }
  }

  /** The whole launch, as its last mint on top of the child's. */
  lemma LaunchIs(st: State, cur: Pid, transfer: Option<nat>)
    requires Inv(st) && st.procs[cur].run.Ready? && FreeEndpoint(st.eps).Some? && FreeProc(st.procs).Some?
    ensures var ep, c := FreeEndpoint(st.eps).value, FreeProc(st.procs).value;
            var s2 := ChildReady(st, cur, transfer, c, ep);
            var recv := Capability(EndpointCap(ep), {MayRecv}, None);
            var (table, handle) := Install(s2.tables[cur], recv);
            SpawnStep(st, cur, transfer, true)
              == (s2.(tables := s2.tables[cur := table], eps := if handle.Some? then Noted(s2.eps, recv) else s2.eps), handle)
  {
    hide Waiters, Replies, AllLawful, CountsAgree, NoneDangle, Tidy, LentFrom, LentToChild, Install, Noted, Unnoted, FreshTable;
    var ep, c := FreeEndpoint(st.eps).value, FreeProc(st.procs).value;
    if transfer.Some? && Held(st.tables[cur], transfer.value).Some? {
      SpawnCounters(st.eps, st.tables, ep, cur, transfer.value);
    }
    var s2 := ChildReady(st, cur, transfer, c, ep);
    var table := Install(s2.tables[cur], Capability(EndpointCap(ep), {MayRecv}, None)).0;
    assert SpawnStep(st, cur, transfer, true).0.tables == s2.tables[cur := table];
  }

  lemma LaunchKeeps(st: State, cur: Pid, transfer: Option<nat>)
    requires Inv(st) && st.procs[cur].run.Ready? && FreeEndpoint(st.eps).Some? && FreeProc(st.procs).Some?
    ensures Inv(SpawnStep(st, cur, transfer, true).0)
  {
    hide Inv, SpawnStep, LentFrom, LentToChild;
    var ep, c := FreeEndpoint(st.eps).value, FreeProc(st.procs).value;
    LaunchIs(st, cur, transfer);
    ChildReadyKeeps(st, cur, transfer, c, ep);
    var s2 := ChildReady(st, cur, transfer, c, ep);
    var recv := Capability(EndpointCap(ep), {MayRecv}, None);
    var handle := Install(s2.tables[cur], recv).1;
    if handle.Some? {
      MintKeeps(s2, cur, handle.value, recv);
    } else {
      SameAgain(s2, cur);
    }
  }

  lemma SameAgain(st: State, p: Pid)
    ensures st.(tables := st.tables[p := st.tables[p]], eps := st.eps) == st
  {
  }
}
