/** Whether every caller can be answered: each one whose request has been taken is named
    by one reply capability, exactly as long as every hand-over finds room for it. */
module IpcAnswers {
  import opened Prelude
  import opened Capabilities
  import opened WaitQueues
  import opened IpcModel
  import opened IpcSafety
  import opened IpcSteps
  import opened IpcDeath
  import opened IpcRuns
  import L = IpcLending
  import opened IpcLoans

  ghost predicate ReplyHeld(tables: seq<Table>, c: nat) {
    exists p: nat, s: nat :: ReplyAt(tables, p, s, c)
  }

  predicate ReplyAt(tables: seq<Table>, p: nat, s: nat, c: nat) {
    p < |tables| && s < MAX_CAPS && RepliesTo(tables[p].caps[s], c)
  }

  ghost predicate Awaits(st: State, c: Pid) {
    PhaseOf(st.history[c]) == Owed
  }

  /** Every caller whose request was taken can still be answered. */
  ghost predicate AllAnswerable(st: State) {
    forall c: Pid :: Awaits(st, c) ==> ReplyHeld(st.tables, c)
  }

  // ----- replies that stay in some table -----

  ghost predicate RepliesKept(before: seq<Table>, after: seq<Table>) {
    forall c: nat :: ReplyHeld(before, c) ==> ReplyHeld(after, c)
  }

  lemma KeptWhenMoved(before: seq<Table>, after: seq<Table>, p: nat, s: nat, q: nat, k: nat)
    requires Moved(before, after, p, s, q, k)
    ensures RepliesKept(before, after)
  {
    hide Duty;
    forall c: nat | ReplyHeld(before, c) ensures ReplyHeld(after, c) {
      var x: nat, y: nat :| ReplyAt(before, x, y, c);
      var (u, v) := if (x, y) == (p, s) then (q, k) else (x, y);
      if (x, y) == (q, k) && (p, s) != (q, k) { NoDutyNoReply(before[x].caps[y], [], c); }
      DutyDecides(before[x].caps[y], after[u].caps[v], 0, MaySend, [], c);
      assert ReplyAt(after, u, v, c);
    }
  }

  /** Every place a reply was in, it is in still, but for those of one caller. */
  ghost predicate OnlyGains(before: seq<Table>, after: seq<Table>, but: nat) {
    |after| == |before| && forall p: nat, s: nat, c: nat :: ReplyAt(before, p, s, c) && c != but ==> ReplyAt(after, p, s, c)
  }

  lemma KeptWhenGained(before: seq<Table>, after: seq<Table>, but: nat)
    requires OnlyGains(before, after, but)
    ensures forall c: nat :: c != but && ReplyHeld(before, c) ==> ReplyHeld(after, c)
  {
    forall c: nat | c != but && ReplyHeld(before, c) ensures ReplyHeld(after, c) {
      var x: nat, y: nat :| ReplyAt(before, x, y, c);
      assert ReplyAt(after, x, y, c);
    }
  }

  // ----- who starts to wait -----

  lemma OnlyTakingOwes(h: seq<Event>, e: Event)
    ensures PhaseOf(h + [e]) == Owed ==> e == RequestTaken
  {
    PhaseStep(h, e);
  }

  /** Nobody new waits for an answer, and the replies there are stay held. */
  lemma QuietStep(st: State, st': State)
    requires AllAnswerable(st) && RepliesKept(st.tables, st'.tables)
    requires forall c: Pid :: Awaits(st', c) ==> Awaits(st, c)
    ensures AllAnswerable(st')
  {
  }

  lemma SameHistoryAwaits(st: State, st': State, x: Pid, e: Event)
    requires e != RequestTaken && (st'.history == st.history || st'.history == st.history[x := st.history[x] + [e]])
    ensures forall c: Pid :: Awaits(st', c) ==> Awaits(st, c)
  {
    OnlyTakingOwes(st.history[x], e);
  }

  // ----- the two hand-overs -----

  /** A hand-over that found no slot for the reply capability. */
  predicate StarvedCall(st: State, cur: Pid, slot: nat) {
    var at := EndpointAt(st, cur, slot, MaySend);
    at.Some? && Peer(st, at.value, false).Some?
    && var x := Peer(st, at.value, false).value; x < MAX_PROCESSES && !HasRoom(st.tables[x])
  }

  predicate StarvedRecv(st: State, cur: Pid, slot: nat) {
    var at := EndpointAt(st, cur, slot, MayRecv);
    at.Some? && Peer(st, at.value, true).Some?
    && var x := Peer(st, at.value, true).value; x < MAX_PROCESSES && st.procs[x].isCall && !HasRoom(st.tables[cur])
  }

  /** The reply capability just minted for `x`, or the lack of it. */
  lemma HandedOver(before: seq<Table>, server: nat, x: nat)
    requires server < |before| && !ReplyHeld(before, x)
    ensures var after := before[server := Install(before[server], Capability(ReplyTo(x), {}, None)).0];
      && RepliesKept(before, after) && (ReplyHeld(after, x) <==> HasRoom(before[server]))
  {
    var cap := Capability(ReplyTo(x), {}, None);
    var after := before[server := Install(before[server], cap).0];
    forall p: nat, s: nat, c: nat | ReplyAt(before, p, s, c) ensures ReplyAt(after, p, s, c) { }
    KeptWhenGained(before, after, x);
    var room := FirstFree(before[server]);
    if room.Some? {
      assert ReplyAt(after, server, room.value, x);
    } else {
      assert after == before;
    }
  }

  lemma NoReplyYet(st: State, x: Pid)
    requires Inv(st) && !Awaits(st, x)
    ensures !ReplyHeld(st.tables, x)
  {
    if ReplyHeld(st.tables, x) {
      var p: nat, s: nat :| ReplyAt(st.tables, p, s, x);
      ReplyIsOwed(st.tables, st.history, p, s, x);
      assert false;
    }
  }

  /** A receive that takes a queued caller's request: the caller waits from now on, and
      can be answered exactly if the receiver's own table had room for the reply. */
  lemma RecvIsAnswerable(st: State, cur: Pid, slot: nat, id: Eid)
    requires Inv(st) && st.procs[cur].run.Ready? && Sound(st)
    requires EndpointAt(st, cur, slot, MayRecv) == Some(id) && Peer(st, id, true).Some? && st.procs[st.eps[id].queue[0]].isCall
    ensures var st' := RecvStep(st, cur, slot).0; var x := st.eps[id].queue[0];
      && x < MAX_PROCESSES && !Awaits(st, x) && Awaits(st', x) && RepliesKept(st.tables, st'.tables)
      && (ReplyHeld(st'.tables, x) <==> HasRoom(st.tables[cur]))
      && forall c: Pid :: c != x ==> st'.history[c] == st.history[c]
  {
    hide Counts, Waiters, TablesTidy, Replies, HasRoom, Install, ReplyHeld, RepliesKept;
    var x := st.eps[id].queue[0];
    PopKeeps(st, id, true);
    PhaseStep(st.history[x], RequestTaken);
    NoReplyYet(st, x);
    HandedOver(st.tables, cur, x);
  }

  /** A call that finds a server waiting: the same, with the server's table. */
  lemma CallIsAnswerable(st: State, cur: Pid, slot: nat, req: nat, id: Eid)
    requires Inv(st) && st.procs[cur].run.Ready? && Sound(st)
    requires EndpointAt(st, cur, slot, MaySend) == Some(id) && Peer(st, id, false).Some?
    ensures var st' := CallStep(st, cur, slot, req).0; var x := st.eps[id].queue[0];
      && x < MAX_PROCESSES && !Awaits(st, cur) && Awaits(st', cur) && RepliesKept(st.tables, st'.tables)
      && (ReplyHeld(st'.tables, cur) <==> HasRoom(st.tables[x]))
      && forall c: Pid :: c != cur && Awaits(st', c) ==> Awaits(st, c)
  {
    hide Counts, Waiters, TablesTidy, Replies, HasRoom, Install, ReplyHeld, RepliesKept, PhaseOf;
    var x := st.eps[id].queue[0];
    assert Lawful(st, cur);
    PopKeeps(st, id, false);
    StillFree(st, id, cur, x);
    CallHistory(st, cur, slot, req, id);
    NoReplyYet(st, cur);
    HandedOver(st.tables, x, cur);
    OnlyTakingOwes(st.history[x], Rendezvous);
  }

  // ----- every operation -----

  lemma SameTablesKept(tables: seq<Table>)
    ensures RepliesKept(tables, tables)
  {
  }

  lemma TransferKeepsReplies(st: State, src: Pid, slot: nat, dst: Pid)
    requires src != dst && CountsAgree(st.tables, st.eps) && Tidy(st.tables[src]) && Tidy(st.tables[dst])
    ensures RepliesKept(st.tables, Transfer(st, src, slot, dst).0.tables) && Transfer(st, src, slot, dst).0.history == st.history
  {
    hide CountsAgree, Tidy, Moved, RepliesKept;
    if slot < MAX_CAPS && st.tables[src].caps[slot].Some? {
      var q, k := TransferMoves(st, src, slot, dst);
      KeptWhenMoved(st.tables, Transfer(st, src, slot, dst).0.tables, src, slot, q, k);
    } else {
      L.NothingToMove(st, src, slot, dst);
      SameTablesKept(st.tables);
    }
  }

  lemma TransitFacts(st: State, x: Pid)
    requires InTransit(st, x)
    ensures CountsAgree(st.tables, st.eps) && forall p: Pid :: Tidy(st.tables[p])
  {
  }

  lemma SendAnswers(st: State, cur: Pid, slot: nat, msg: nat, cap: Option<nat>)
    requires Inv(st) && st.procs[cur].run.Ready? && AllAnswerable(st) && Sound(st)
    ensures AllAnswerable(SendStep(st, cur, slot, msg, cap).0)
  {
    hide Counts, AllPaired, WaitersHold, Replies, TablesTidy, HoldsRight, CountsAgree, Tidy;
    hide Transfer, InTransit, PhaseOf, RepliesKept, AllAnswerable, Awaits;
    var st' := SendStep(st, cur, slot, msg, cap).0;
    SameTablesKept(st.tables);
    var at := EndpointAt(st, cur, slot, MaySend);
    var e := ParkedInQueue;
    var x: Pid := cur;
    if at.Some? && Peer(st, at.value, false).Some? {
      x, e := st.eps[at.value].queue[0], Rendezvous;
      var taken := Popped(st, at.value);
      PopKeeps(st, at.value, false);
      StillFree(st, at.value, cur, x);
      TransitFacts(taken, x);
      if cap.Some? { TransferKeepsReplies(taken, cur, cap.value, x); }
    }
    SameHistoryAwaits(st, st', x, e);
    QuietStep(st, st');
  }

  lemma RecvAnswers(st: State, cur: Pid, slot: nat)
    requires Inv(st) && st.procs[cur].run.Ready? && AllAnswerable(st) && Sound(st)
    ensures AllAnswerable(RecvStep(st, cur, slot).0) <==> !StarvedRecv(st, cur, slot)
  {
    hide Counts, AllPaired, WaitersHold, Replies, TablesTidy, HoldsRight, CountsAgree, Tidy;
    hide Transfer, InTransit, PhaseOf, RepliesKept, Install, HasRoom, ReplyHeld;
    var st' := RecvStep(st, cur, slot).0;
    SameTablesKept(st.tables);
    var at := EndpointAt(st, cur, slot, MayRecv);
    if at.Some? && Peer(st, at.value, true).Some? {
      var x := st.eps[at.value].queue[0];
      var taken := Popped(st, at.value);
      PopKeeps(st, at.value, true);
      StillFree(st, at.value, cur, x);
      TransitFacts(taken, x);
      if st.procs[x].isCall {
        RecvIsAnswerable(st, cur, slot, at.value);
        AnswerableBut(st, st', x);
      } else {
        var cap := st.procs[x].cap;
        if cap.Some? { TransferKeepsReplies(taken, x, cap.value, cur); }
        SameHistoryAwaits(st, st', x, Rendezvous);
        QuietStep(st, st');
      }
    } else {
      SameHistoryAwaits(st, st', cur, ParkedInQueue);
      QuietStep(st, st');
    }
  }

  /** With one process newly waiting, all depends on whether it can be answered. */
  lemma AnswerableBut(st: State, st': State, x: Pid)
    requires AllAnswerable(st) && RepliesKept(st.tables, st'.tables) && Awaits(st', x)
    requires forall c: Pid :: c != x && Awaits(st', c) ==> Awaits(st, c)
    ensures AllAnswerable(st') <==> ReplyHeld(st'.tables, x)
  {
    hide ReplyHeld;
  }

  lemma CallAnswers(st: State, cur: Pid, slot: nat, req: nat)
    requires Inv(st) && st.procs[cur].run.Ready? && AllAnswerable(st) && Sound(st)
    ensures AllAnswerable(CallStep(st, cur, slot, req).0) <==> !StarvedCall(st, cur, slot)
  {
    hide Inv, HasRoom, RepliesKept, AllAnswerable, Awaits, Install, ReplyHeld;
    var st' := CallStep(st, cur, slot, req).0;
    var at := EndpointAt(st, cur, slot, MaySend);
    if at.Some? && Peer(st, at.value, false).Some? {
      CallIsAnswerable(st, cur, slot, req, at.value);
      AnswerableBut(st, st', cur);
    } else {
      SameTablesKept(st.tables);
      SameHistoryAwaits(st, st', cur, ParkedCalling);
      QuietStep(st, st');
    }
  }

  lemma ReplyAnswers(st: State, cur: Pid, slot: nat, msg: nat)
    requires Inv(st) && st.procs[cur].run.Ready? && AllAnswerable(st)
    ensures AllAnswerable(ReplyStep(st, cur, slot, msg).0)
  {
    hide Inv, PhaseOf;
    var st' := ReplyStep(st, cur, slot, msg).0;
    var held := Held(st.tables[cur], slot);
    if held.Some? && held.value.target.ReplyTo? && held.value.target.caller < MAX_PROCESSES && st.procs[held.value.target.caller].run.Blocked? {
      var c := held.value.target.caller;
      OnlyTakingOwes(st.history[c], Replied);
      KeptWhenGained(st.tables, st'.tables, c);
    }
  }

  lemma ReleaseAnswers(st: State, cur: Pid, slot: nat)
    requires Inv(st) && st.procs[cur].run.Ready? && AllAnswerable(st)
    ensures AllAnswerable(ReleaseStep(st, cur, slot).0)
  {
    hide Inv, PhaseOf;
    var st' := ReleaseStep(st, cur, slot).0;
    forall p: nat, s: nat, c: nat | ReplyAt(st.tables, p, s, c) ensures ReplyAt(st'.tables, p, s, c) { }
    KeptWhenGained(st.tables, st'.tables, MAX_PROCESSES);
  }

  lemma KernelAnswers(st: State, p: Pid, target: CapObject, rights: set<Right>)
    requires Inv(st) && AllAnswerable(st)
    ensures AllAnswerable(CreateEndpoint(st)) && AllAnswerable(Boot(st)) && AllAnswerable(Mint(st, p, target, rights))
  {
    hide Counts, Waiters, Replies, AllLawful, PhaseOf, FreshTable;
    var minted, booted := Mint(st, p, target, rights), Boot(st);
    forall x: nat, s: nat, c: nat | ReplyAt(st.tables, x, s, c) ensures ReplyAt(minted.tables, x, s, c) { }
    KeptWhenGained(st.tables, minted.tables, MAX_PROCESSES);
    forall x: nat, s: nat, c: nat | ReplyAt(st.tables, x, s, c) ensures ReplyAt(booted.tables, x, s, c) { }
    KeptWhenGained(st.tables, booted.tables, MAX_PROCESSES);
    if FreeProc(st.procs).Some? { OnlyTakingOwes(st.history[FreeProc(st.procs).value], Started); }
  }

  // ----- spawn -----

  lemma FailedSpawnAnswers(st: State, cur: Pid, transfer: Option<nat>, loads: bool)
    requires Inv(st) && st.procs[cur].run.Ready? && AllAnswerable(st)
    requires FreeEndpoint(st.eps).Some? && (FreeProc(st.procs).None? || !loads)
    ensures AllAnswerable(SpawnStep(st, cur, transfer, loads).0)
  {
    hide Counts, Waiters, Replies, AllLawful, PhaseOf, Moved, RepliesKept, Tidy;
    FailedSpawnKeeps(st, cur, transfer, loads);
    var st' := SpawnStep(st, cur, transfer, loads).0;
    var t := st.tables[cur];
    if transfer.Some? && Held(t, transfer.value).Some? {
      var slot := transfer.value;
      var k := TakenBackWhere(t, slot);
      var back := TakenBack(LentFrom(t, slot), slot, t.caps[slot].value);
      MovedBack(st.tables, cur, slot, k, back);
      KeptWhenMoved(st.tables, st.tables[cur := back], cur, slot, cur, k);
    } else {
      assert st'.tables == st.tables;
      SameTablesKept(st.tables);
    }
    QuietStep(st, st');
  }

  lemma ChildStartAnswers(st: State, c: Pid, ep: Eid)
    requires Inv(st) && AllAnswerable(st) && st.procs[c].run.Empty?
    ensures AllAnswerable(ChildStarted(st, c, ep))
  {
    hide Counts, Waiters, Replies, AllLawful, PhaseOf, FreshTable;
    var st' := ChildStarted(st, c, ep);
    forall x: nat, s: nat, r: nat | ReplyAt(st.tables, x, s, r) ensures ReplyAt(st'.tables, x, s, r) { }
    KeptWhenGained(st.tables, st'.tables, MAX_PROCESSES);
    OnlyTakingOwes(st.history[c], Started);
  }

  lemma ChildReadyAnswers(st: State, cur: Pid, transfer: Option<nat>, c: Pid, ep: Eid)
    requires Inv(st) && AllAnswerable(st) && st.procs[cur].run.Ready? && st.procs[c].run.Empty?
    ensures AllAnswerable(ChildReady(st, cur, transfer, c, ep))
  {
    hide Inv, AllAnswerable, Moved, RepliesKept, PhaseOf;
    ChildStartAnswers(st, c, ep);
    var s1, st' := ChildStarted(st, c, ep), ChildReady(st, cur, transfer, c, ep);
    if transfer.Some? && Held(st.tables[cur], transfer.value).Some? {
      var slot := transfer.value;
      var without := LentFrom(st.tables[cur], slot);
      MovedAcross(s1.tables, cur, slot, c, 2, without, st'.tables[c]);
      KeptWhenMoved(s1.tables, s1.tables[cur := without][c := st'.tables[c]], cur, slot, c, 2);
      QuietStep(s1, st');
    }
  }

  lemma SpawnAnswers(st: State, cur: Pid, transfer: Option<nat>, loads: bool)
    requires Inv(st) && st.procs[cur].run.Ready? && AllAnswerable(st)
    ensures AllAnswerable(SpawnStep(st, cur, transfer, loads).0)
  {
    if FreeEndpoint(st.eps).Some? {
      if FreeProc(st.procs).None? || !loads {
        FailedSpawnAnswers(st, cur, transfer, loads);
      } else {
        hide Inv, SpawnStep, ChildReady, PhaseOf;
        var ep, c := FreeEndpoint(st.eps).value, FreeProc(st.procs).value;
        ChildReadyAnswers(st, cur, transfer, c, ep);
        LaunchIs(st, cur, transfer);
        var s2, st' := ChildReady(st, cur, transfer, c, ep), SpawnStep(st, cur, transfer, true).0;
        forall x: nat, s: nat, r: nat | ReplyAt(s2.tables, x, s, r) ensures ReplyAt(st'.tables, x, s, r) { }
        KeptWhenGained(s2.tables, st'.tables, MAX_PROCESSES);
        QuietStep(s2, st');
      }
    }
  }

  // ----- death -----

  lemma FilledReplies(before: seq<Table>, after: seq<Table>)
    requires OnlyFills(before, after)
    ensures RepliesKept(before, after)
  {
    forall p: nat, s: nat, c: nat | ReplyAt(before, p, s, c) ensures ReplyAt(after, p, s, c) {
      assert L.CapAt(before, L.Place(p, s)).Some?;
    }
    forall c: nat | ReplyHeld(before, c) ensures ReplyHeld(after, c) {
      var x: nat, y: nat :| ReplyAt(before, x, y, c);
      assert ReplyAt(after, x, y, c);
    }
  }

  /** Who still waits after a death was not woken by it, so the one who died did not
      hold the reply. */
  lemma EndedAnswers(st: State, p: Pid)
    requires Inv(st) && st.procs[p].run.Ready? && AllAnswerable(st)
    ensures AllAnswerable(Ended(st, p))
  {
    hide Counts, Waiters, Replies, TablesTidy, PhaseOf, SameDuties, ReapedProc, Stuck, Drained, Duty;
    var st' := Ended(st, p);
    assert TablesTidy(st);
    EndedTables(st, p);
    forall c: Pid | Awaits(st', c) ensures ReplyHeld(st'.tables, c) {
      StillWaits(st, p, c);
      var q: nat, s: nat :| ReplyAt(st.tables, q, s, c);
      assert ReplyIn(st.tables[q], s, c);
      assert Lawful(st, c);
      assert q != p;
      SameDutiesSameReply(st.tables[q], st'.tables[q], s, c);
      assert ReplyAt(st'.tables, q, s, c);
    }
  }

  lemma SameDutiesSameReply(a: Table, b: Table, s: nat, c: nat)
    requires SameDuties(a, b) && s < MAX_CAPS && RepliesTo(a.caps[s], c)
    ensures RepliesTo(b.caps[s], c)
  {
    DutyDecides(a.caps[s], b.caps[s], 0, MaySend, [], c);
  }

  lemma StillWaits(st: State, p: Pid, c: Pid)
    requires Awaits(Ended(st, p), c)
    ensures c != p && Awaits(st, c) && !WokenBy(st, p, c)
  {
    hide PhaseOf, ReapedProc, Stuck, Drained, Owes, StrandedBy;
    OnlyTakingOwes(Reaped(st, p).history[p], Exited);
    OnlyTakingOwes(st.history[c], Bereaved);
  }

  lemma DieAnswers(st: State, p: Pid)
    requires Inv(st) && st.procs[p].run.Ready? && AllAnswerable(st)
    ensures AllAnswerable(Die(st, p))
  {
    hide Inv, ReclaimFrom, Ended, OnlyFills, RepliesKept;
    ReclaimKeeps(st, p, 0);
    ReclaimFills(st, p, 0);
    var mid := ReclaimFrom(st, p, 0);
    FilledReplies(st.tables, mid.tables);
    QuietStep(st, mid);
    EndedAnswers(mid, p);
  }

  // ----- whole runs -----

  /** A hand-over of a call for which the server's table has no room. */
  predicate StarvedHandover(st: State, op: Op) {
    || (op.OpCall? && StarvedCall(st, op.caller, op.callOn))
    || (op.OpRecv? && StarvedRecv(st, op.receiver, op.recvOn))
  }

  /** Every operation leaves every taken call answerable, except exactly a hand-over
      that finds no room for the reply capability. */
  lemma StepAnswersExactly(st: State, op: Op)
    requires Inv(st) && Enabled(st, op) && AllAnswerable(st) && Sound(st)
    ensures AllAnswerable(Step(st, op)) <==> !StarvedHandover(st, op)
  {
    hide Inv, AllAnswerable, SendStep, RecvStep, CallStep, ReplyStep, SpawnStep, ReleaseStep, Die;
    hide CreateEndpoint, Boot, Mint, StarvedCall, StarvedRecv;
    match op {
      case OpCreate => KernelAnswers(st, 0, CpuTime(0), {});
      case OpBoot => KernelAnswers(st, 0, CpuTime(0), {});
      case OpMint(p, target, rights) => KernelAnswers(st, p, target, rights);
      case OpSend(p, slot, msg, cap) => SendAnswers(st, p, slot, msg, cap);
      case OpRecv(p, slot) => RecvAnswers(st, p, slot);
      case OpCall(p, slot, req) => CallAnswers(st, p, slot, req);
      case OpReply(p, slot, msg) => ReplyAnswers(st, p, slot, msg);
      case OpSpawn(p, transfer, loads) => SpawnAnswers(st, p, transfer, loads);
      case OpRelease(p, slot) => ReleaseAnswers(st, p, slot);
      case OpDie(p) => DieAnswers(st, p);
    }
  }

  /** No hand-over of the run found its table full. */
  ghost predicate NoneStarved(ops: seq<Op>) {
    forall n :: 0 <= n < |ops| ==> !StarvedNext(ops, n)
  }

  ghost predicate StarvedNext(ops: seq<Op>, n: nat)
    requires n < |ops|
  {
    Enabled(Run(ops[..n]), ops[n]) && StarvedHandover(Run(ops[..n]), ops[n])
  }

  lemma {:induction false} RunAnswers(ops: seq<Op>)
    requires NoneStarved(ops)
    ensures AllAnswerable(Run(ops))
    decreases |ops|
  {
    hide Inv, Step, StarvedHandover;
    if ops == [] {
      forall c: Pid ensures !Awaits(Initial(), c) { }
    } else {
      var n := |ops| - 1;
      var before := Run(ops[..n]);
      forall k | 0 <= k < n ensures !StarvedNext(ops[..n], k) {
        assert !StarvedNext(ops, k);
        assert ops[..n][..k] == ops[..k];
      }
      RunAnswers(ops[..n]);
      assert !StarvedNext(ops, n);
      InvIsSound(before);
      if Enabled(before, ops[n]) { StepAnswersExactly(before, ops[n]); }
    }
  }

  /** In every run whose hand-overs found room, a process is waiting for the answer to
      a call that was taken exactly when some reply capability names it; and then one
      alone does, whatever was sent on, refused, released or died in between. */
  lemma OwedIffNamedOnce(ops: seq<Op>, c: Pid)
    requires NoneStarved(ops)
    ensures PhaseOf(Run(ops).history[c]) == Owed <==> ReplyHeld(Run(ops).tables, c)
    ensures forall p: nat, s: nat, q: nat, k: nat ::
              ReplyAt(Run(ops).tables, p, s, c) && ReplyAt(Run(ops).tables, q, k, c) ==> (p, s) == (q, k)
  {
    hide Counts, Waiters, AllLawful, TablesTidy, RepliesUnique, RepliesOwed, PhaseOf;
    RunAnswers(ops);
    var st := Run(ops);
    if ReplyHeld(st.tables, c) && !Awaits(st, c) { NoReplyYet(st, c); }
    forall p: nat, s: nat, q: nat, k: nat | ReplyAt(st.tables, p, s, c) && ReplyAt(st.tables, q, k, c) ensures (p, s) == (q, k) {
      OneReply(st.tables, p, s, q, k, c);
    }
  }
}
