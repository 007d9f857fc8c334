/** Whole runs of the IPC machine. */
module IpcRuns {
  import opened Prelude
  import opened Capabilities
  import opened WaitQueues
  import opened IpcModel
  import opened IpcSafety
  import opened IpcSteps
  import opened IpcDeath

  /** The one operation that can strand a waiter: a voluntary release of the last
      counterpart of a queue that already has waiters. */
  predicate StrandingRelease(st: State, op: Op) {
    op.OpRelease? && LastCounterpart(st, op.holder, op.slot)
  }

  /** Every operation keeps the invariant, except exactly a stranding release. */
  lemma StepKeepsExactly(st: State, op: Op)
    requires Inv(st) && Enabled(st, op)
    ensures Inv(Step(st, op)) <==> !StrandingRelease(st, op)
  {
    hide Inv, SendStep, RecvStep, CallStep, ReplyStep, SpawnStep, ReleaseStep, Die, LastCounterpart;
    match op {
      case OpCreate => CreateStepKeeps(st);
      case OpBoot => BootStepKeeps(st);
      case OpMint(p, target, rights) => MintStepKeeps(st, p, target, rights);
      case OpSend(p, slot, msg, cap) => SendKeeps(st, p, slot, msg, cap);
      case OpRecv(p, slot) => RecvKeeps(st, p, slot);
      case OpCall(p, slot, req) => CallKeeps(st, p, slot, req);
      case OpReply(p, slot, msg) => ReplyKeeps(st, p, slot, msg);
      case OpSpawn(p, transfer, loads) => SpawnKeeps(st, p, transfer, loads);
      case OpRelease(p, slot) => ReleaseKeepsExactly(st, p, slot);
      case OpDie(p) => DieKeeps(st, p);
    }
  }

  lemma CreateStepKeeps(st: State)
    requires Inv(st)
    ensures Inv(CreateEndpoint(st))
  {
    hide Inv;
    if FreeEndpoint(st.eps).Some? { CreateKeeps(st, FreeEndpoint(st.eps).value); }
  }

  lemma BootStepKeeps(st: State)
    requires Inv(st)
    ensures Inv(Boot(st))
  {
    hide Inv;
    if FreeProc(st.procs).Some? { BootKeeps(st, FreeProc(st.procs).value); }
  }

  lemma MintStepKeeps(st: State, p: Pid, target: CapObject, rights: set<Right>)
    requires Inv(st) && st.procs[p].run.Ready? && MayMint(st, target, rights)
    ensures Inv(Mint(st, p, target, rights))
  {
    hide Inv;
    var landing := FirstFree(st.tables[p]);
    if landing.Some? { MintKeeps(st, p, landing.value, Capability(target, rights, None)); }
  }

  /** The states a run from the empty machine passes through; an operation that is
      not enabled, or that would strand a waiter, is not taken. */
  ghost function Run(ops: seq<Op>): (st: State)
    ensures Inv(st)
    decreases |ops|
  {
    if ops == [] then
      InitialIsSafe();
      Initial()
    else
      var n := |ops| - 1;
      var before := Run(ops[..n]);
      InvIsSound(before);
      if !Enabled(before, ops[n]) || StrandingRelease(before, ops[n]) then before
      else
        StepKeepsExactly(before, ops[n]);
        Step(before, ops[n])
  }

  // ----- what a reader of the reachable states gets -----

  lemma PositiveMeansHeld(tables: seq<Table>, id: nat, right: Right)
    requires |Naming(tables, id, right)| > 0
    ensures exists p, s :: 0 <= p < |tables| && 0 <= s < MAX_CAPS && Names(tables[p].caps[s], id, right)
  {
    var a :| a in Naming(tables, id, right);
    assert NamesThere(tables, a, id, right);
  }

  /** In every reachable state, a process waiting on an endpoint has somewhere a live
      capability for the other direction that could still meet it. */
  lemma NobodyWaitsForNobody(ops: seq<Op>, id: Eid)
    requires Run(ops).eps[id].queue != []
    ensures var st := Run(ops);
            exists p, s :: 0 <= p < MAX_PROCESSES && 0 <= s < MAX_CAPS
              && Names(st.tables[p].caps[s], id, Side(!st.eps[id].areSenders))
  {
    hide Naming, NoneDangle, WaitersHold, Replies, AllLawful, TablesTidy;
    var st := Run(ops);
    assert HasCounterpart(st.eps[id]);
    PositiveMeansHeld(st.tables, id, Side(!st.eps[id].areSenders));
  }

  /** An endpoint slot that is free is named by no capability, so none survives into
      its next use. */
  lemma FreeEndpointIsNamedByNone(ops: seq<Op>, id: Eid, p: Pid, s: nat)
    requires !Run(ops).eps[id].inUse && s < MAX_CAPS
    ensures !NamesAt(Run(ops).tables[p], s, id)
  {
    hide CountsAgree, Waiters, Replies, AllLawful, TablesTidy;
    NameIsLive(Run(ops).tables, Run(ops).eps, p, s);
  }

  function Count(h: seq<Event>, e: Event): nat {
    if h == [] then 0 else Count(h[..|h| - 1], e) + One(h[|h| - 1] == e)
  }

  /** In a lawful history every wake-up ends one park, every request handed over is
      answered or mourned at most once, and nothing is answered that was not asked. */
  lemma {:induction false} LawfulCounts(h: seq<Event>)
    requires PhaseOf(h) != Broken
    ensures Count(h, ParkedInQueue) + Count(h, ParkedCalling)
         == Count(h, Rendezvous) + Count(h, Replied) + Count(h, Bereaved)
            + One(PhaseOf(h) == InQueue || PhaseOf(h) == Calling || PhaseOf(h) == Owed)
    ensures Count(h, Replied) + One(PhaseOf(h) == Owed) <= Count(h, RequestTaken)
    ensures Count(h, RequestTaken) + One(PhaseOf(h) == Calling) <= Count(h, ParkedCalling)
    ensures Count(h, Rendezvous) + One(PhaseOf(h) == InQueue) <= Count(h, ParkedInQueue)
    ensures Count(h, Started) == Count(h, Exited) + One(PhaseOf(h) != Dead)
  {
    if h != [] {
      hide Count;
      assert PhaseOf(h[..|h| - 1]) != Broken;
      LawfulCounts(h[..|h| - 1]);
      CountLast(h, Started);
      CountLast(h, Exited);
      CountLast(h, ParkedInQueue);
      CountLast(h, ParkedCalling);
      CountLast(h, RequestTaken);
      CountLast(h, Rendezvous);
      CountLast(h, Replied);
      CountLast(h, Bereaved);
    }
  }

  lemma CountLast(h: seq<Event>, e: Event)
    requires h != []
    ensures Count(h, e) == Count(h[..|h| - 1], e) + One(h[|h| - 1] == e)
  {
  }

  /** Each call is answered or mourned at most once, in every run and for every slot. */
  lemma CallsAnsweredOnce(ops: seq<Op>, p: Pid)
    ensures var h := Run(ops).history[p];
            && Count(h, Replied) <= Count(h, RequestTaken) <= Count(h, ParkedCalling)
            && Count(h, Rendezvous) + Count(h, Replied) + Count(h, Bereaved)
               + One(Run(ops).procs[p].run.Blocked?) == Count(h, ParkedInQueue) + Count(h, ParkedCalling)
  {
    hide Counts, Waiters, Replies, TablesTidy;
    assert Lawful(Run(ops), p);
    LawfulCounts(Run(ops).history[p]);
  }

  /** A reply always goes to the process whose call it answers, wakes it with that
      word, and leaves nobody able to answer again. */
  lemma ReplyReachesItsCaller(ops: seq<Op>, server: Pid, slot: nat, c: nat, word: nat)
    requires Run(ops).procs[server].run.Ready? && slot < MAX_CAPS && RepliesTo(Run(ops).tables[server].caps[slot], c)
    ensures c < MAX_PROCESSES && c != server && PhaseOf(Run(ops).history[c]) == Owed
    ensures var (st', out) := ReplyStep(Run(ops), server, slot, word);
            && out == Some(Answer(Delivered, None, None))
            && st'.procs[c].run.Ready? && st'.procs[c].frame == Answer(Delivered, Some(word), None)
            && forall p: Pid, s :: 0 <= s < MAX_CAPS ==> !RepliesTo(st'.tables[p].caps[s], c)
  {
    hide Inv;
    ReplyFindsItsCaller(Run(ops), server, slot, c);
  }

  lemma CallHistory(st: State, cur: Pid, slot: nat, req: nat, id: Eid)
    requires Inv(st) && st.procs[cur].run.Ready? && Sound(st)
    requires EndpointAt(st, cur, slot, MaySend) == Some(id) && Peer(st, id, false).Some?
    ensures PhaseOf(CallStep(st, cur, slot, req).0.history[cur]) == Owed
  {
    hide Counts, Waiters, TablesTidy, Replies;
    var h := st.history[cur];
    assert Lawful(st, cur);
    PopKeeps(st, id, false);
    StillFree(st, id, cur, st.eps[id].queue[0]);
    PhaseStep(h, ParkedCalling);
    PhaseStep(h + [ParkedCalling], RequestTaken);
    assert CallStep(st, cur, slot, req).0.history[cur] == h + [ParkedCalling] + [RequestTaken];
  }

  /** A death wakes exactly the callers it leaves unanswered and the waiters it
      strands, each with the dead-peer status; everyone else stays as they were. */
  lemma DeathWakesExactly(st: State, p: Pid, c: Pid)
    requires Inv(st) && st.procs[p].run.Ready? && c != p
    ensures var mid := ReclaimFrom(st, p, 0);
            && (st.procs[c].run.Blocked? && Die(st, p).procs[c].run.Ready? <==> WokenBy(mid, p, c))
            && (WokenBy(mid, p, c) ==> Die(st, p).procs[c].frame.status == PeerDied)
            && (!WokenBy(mid, p, c) ==> Die(st, p).procs[c].run == st.procs[c].run && Die(st, p).procs[c].frame == mid.procs[c].frame)
  {
    hide Counts, Replies, TablesTidy, ReclaimFrom, Owes, StrandedBy, AllPaired, WaitersHold;
    ReclaimKeeps(st, p, 0);
    var mid := ReclaimFrom(st, p, 0);
    if Stuck(mid, p, c) {
      assert Lawful(mid, c);
    }
  }

  // ----- a run in which a release strands a waiter -----

  function Launch(): seq<Op> { [OpCreate] + [OpBoot] + [OpBoot] }
  function Grants(): seq<Op> { Launch() + [OpMint(0, EndpointCap(0), {MaySend})] + [OpMint(1, EndpointCap(0), {MayRecv})] }
  function Waiting(): seq<Op> { Grants() + [OpSend(0, 1, 7, None)] }

  lemma RunStep(ops: seq<Op>, op: Op)
    ensures Run(ops + [op]) == (InvIsSound(Run(ops));
      if !Enabled(Run(ops), op) || StrandingRelease(Run(ops), op) then Run(ops) else Step(Run(ops), op))
  {
    assert (ops + [op])[..|ops|] == ops;
  }

  lemma AfterCreate()
    ensures var st := Run([OpCreate]);
            st.eps[0] == NoEndpoint().(inUse := true) && forall p: Pid :: st.procs[p].run.Empty?
  {
    hide Inv, Step;
    assert Run([]) == Initial();
    RunStep([], OpCreate);
    assert [] + [OpCreate] == [OpCreate];
    StepIsCreate();
  }

  lemma StepIsCreate()
    ensures (InvIsSound(Run([])); Step(Run([]), OpCreate)) == CreateEndpoint(Initial())
  {
    hide Inv;
    InvIsSound(Run([]));
  }

  /** A boot into the first empty slot. */
  lemma AfterBoot(ops: seq<Op>, p: Pid)
    requires FreeProc(Run(ops).procs) == Some(p)
    ensures var st, st' := Run(ops), Run(ops + [OpBoot]);
            && st'.procs == st.procs[p := NoProc().(run := Ready)] && st'.tables == st.tables[p := FreshTable()] && st'.eps == st.eps
  {
    hide Inv, Run;
    InvIsSound(Run(ops));
    RunStep(ops, OpBoot);
  }

  lemma AfterLaunch()
    ensures var st := Run(Launch());
            && st.procs[0].run.Ready? && st.procs[1].run.Ready? && st.tables[0] == st.tables[1] == FreshTable()
            && st.eps[0] == NoEndpoint().(inUse := true) && forall p: Pid :: p >= 2 ==> st.procs[p].run.Empty?
  {
    hide Inv, Run, FreshTable;
    AfterCreate();
    AfterBoot([OpCreate], 0);
    AfterBoot([OpCreate] + [OpBoot], 1);
  }

  lemma AfterGrants()
    ensures var st := Run(Grants());
            && st.procs[0].run.Ready? && st.procs[1].run.Ready?
            && st.tables[0] == Put(FreshTable(), 1, Capability(EndpointCap(0), {MaySend}, None))
            && st.tables[1] == Put(FreshTable(), 1, Capability(EndpointCap(0), {MayRecv}, None))
            && st.eps[0] == Endpoint(true, [], false, 1, 1)
  {
    hide Inv, Run;
    AfterLaunch();
    assert FirstFree(FreshTable()) == Some(1);
    var one := OpMint(0, EndpointCap(0), {MaySend});
    RunStep(Launch(), one);
    RunStep(Launch() + [one], OpMint(1, EndpointCap(0), {MayRecv}));
    assert Run(Launch() + [one]).tables[1] == FreshTable();
  }

  lemma AfterWaiting()
    ensures var st := Run(Waiting());
            && st.procs[1].run.Ready? && st.eps[0] == Endpoint(true, [0], true, 1, 1)
            && st.tables[1] == Put(FreshTable(), 1, Capability(EndpointCap(0), {MayRecv}, None))
  {
    hide Inv, Run;
    AfterGrants();
    RunStep(Grants(), OpSend(0, 1, 7, None));
  }

  /** A sender parked for its one receiver is left parked when that receiver releases
      its capability: no receive capability is left anywhere. */
  lemma ReleaseCanStrand()
    ensures var st := Run(Waiting());
            Enabled(st, OpRelease(1, 1)) && StrandingRelease(st, OpRelease(1, 1)) && Sound(st)
    ensures var st := Run(Waiting());
            var e := Step(st, OpRelease(1, 1)).eps[0];
            e.queue == [0] && e.areSenders && e.receivers == 0
  {
    hide Inv, Run;
    AfterWaiting();
    InvIsSound(Run(Waiting()));
  }
}
