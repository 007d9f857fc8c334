/** What is said on an endpoint and what is heard there: over whole runs the words and
    capabilities given to send and call reach its receivers in order and once each
    (kernel/src/ipc.rs). */
module IpcWords {
  import opened Prelude
  import opened Capabilities
  import opened WaitQueues
  import opened IpcModel
  import opened IpcSafety
  import opened IpcSteps
  import opened IpcDeath
  import opened IpcRuns

  /** One send or call as it was made: by whom, the word, the slot of a capability to go
      with it, and whether an answer is awaited. */
  datatype Letter = Letter(author: nat, word: nat, cap: Option<nat>, isCall: bool)

  // ----- what one operation says and hears -----

  /** What the operation returns to the process that made it, `None` when it parked. */
  function ToldTo(st: State, op: Op): Outcome
    requires Sound(st)
  {
    match op
    case OpSend(p, slot, msg, cap) => SendStep(st, p, slot, msg, cap).1
    case OpRecv(p, slot) => RecvStep(st, p, slot).1
    case OpCall(p, slot, req) => CallStep(st, p, slot, req).1
    case OpReply(p, slot, msg) => ReplyStep(st, p, slot, msg).1
    case _ => None
  }

  predicate Accepted(told: Outcome) {
    told.None? || told.value.status.Delivered?
  }

  /** The letter an operation puts on endpoint `id`, unless it is refused. */
  function SaidBy(st: State, op: Op, id: Eid): seq<Letter>
    requires Sound(st)
  {
    match op
    case OpSend(p, slot, msg, cap) =>
      if EndpointAt(st, p, slot, MaySend) == Some(id) && Accepted(ToldTo(st, op)) then [Letter(p, msg, cap, false)] else []
    case OpCall(p, slot, req) =>
      if EndpointAt(st, p, slot, MaySend) == Some(id) && Accepted(ToldTo(st, op)) then [Letter(p, req, None, true)] else []
    case _ => []
  }

  /** The word a receiver of `id` is given in the operation: the one receiving, in its
      answer, or the one that waited longest, in the frame it wakes with. */
  function HeardIn(st: State, op: Op, after: State, id: Eid): seq<nat>
    requires Sound(st)
  {
    match op
    case OpRecv(p, slot) =>
      var told := ToldTo(st, op);
      if EndpointAt(st, p, slot, MayRecv) == Some(id) && told.Some? && told.value.status.Delivered? && told.value.payload.Some?
      then [told.value.payload.value] else []
    case OpSend(_, _, _, _) => WokenWord(st, after, id)
    case OpCall(_, _, _) => WokenWord(st, after, id)
    case _ => []
  }

  function WokenWord(st: State, after: State, id: Eid): seq<nat>
    requires Sound(st)
  {
    if st.eps[id].queue == [] || st.eps[id].areSenders then []
    else
      var x := st.eps[id].queue[0];
      var frame := after.procs[x].frame;
      if st.procs[x].run.Blocked? && after.procs[x].run.Ready? && frame.status.Delivered? && frame.payload.Some?
      then [frame.payload.value] else []
  }

  /** The letters of those waiting to send. */
  function LetterOf(st: State, q: nat): Letter {
    if q < MAX_PROCESSES then Letter(q, st.procs[q].msg, st.procs[q].cap, st.procs[q].isCall) else Letter(q, 0, None, false)
  }

  function Unheard(st: State, id: Eid): seq<Letter> {
    var e := st.eps[id];
    if e.areSenders then seq(|e.queue|, i requires 0 <= i < |e.queue| => LetterOf(st, e.queue[i])) else []
  }

  lemma SameLetters(st: State, after: State, id: Eid)
    requires after.eps[id].queue == st.eps[id].queue
    requires st.eps[id].queue != [] ==> after.eps[id].areSenders == st.eps[id].areSenders
    requires forall q :: q in st.eps[id].queue ==> LetterOf(after, q) == LetterOf(st, q)
    ensures Unheard(after, id) == Unheard(st, id)
  {
  }

  lemma OneMoreLetter(st: State, after: State, id: Eid, cur: Pid)
    requires st.eps[id].queue == [] || st.eps[id].areSenders
    requires after.eps[id].queue == st.eps[id].queue + [cur] && after.eps[id].areSenders
    requires forall q :: q in st.eps[id].queue ==> LetterOf(after, q) == LetterOf(st, q)
    ensures Unheard(after, id) == Unheard(st, id) + [LetterOf(after, cur)]
  {
  }

  lemma OneLetterLess(st: State, after: State, id: Eid)
    requires st.eps[id].queue != [] && st.eps[id].areSenders
    requires after.eps[id].queue == st.eps[id].queue[1..] && after.eps[id].areSenders
    requires forall q :: q in st.eps[id].queue[1..] ==> LetterOf(after, q) == LetterOf(st, q)
    ensures Unheard(st, id) == [LetterOf(st, st.eps[id].queue[0])] + Unheard(after, id)
  {
  }

  // ----- what an operation does to the letters of an endpoint -----

  /** What was unheard and what is said now, less what is heard, is unheard afterwards;
      and what is heard is the word of the first of them. */
  ghost predicate Carried(st: State, op: Op, after: State, id: Eid)
    requires Sound(st)
  {
    var (now, heard) := (Unheard(st, id) + SaidBy(st, op, id), HeardIn(st, op, after, id));
    && |heard| <= |now| && (forall i :: 0 <= i < |heard| ==> heard[i] == now[i].word)
    && Unheard(after, id) == now[|heard|..]
  }

  lemma QuietCarries(st: State, op: Op, after: State, id: Eid)
    requires Sound(st) && SaidBy(st, op, id) == [] && HeardIn(st, op, after, id) == []
    requires after.eps[id].queue == st.eps[id].queue
    requires st.eps[id].queue != [] ==> after.eps[id].areSenders == st.eps[id].areSenders
    requires forall q :: q in st.eps[id].queue ==> LetterOf(after, q) == LetterOf(st, q)
    ensures Carried(st, op, after, id)
  {
    SameLetters(st, after, id);
  }

  lemma TransferLeavesProcs(st: State, src: Pid, slot: nat, dst: Pid)
    ensures var st' := Transfer(st, src, slot, dst).0;
      && st'.procs == st.procs
      && forall id: Eid :: st'.eps[id].queue == st.eps[id].queue && st'.eps[id].areSenders == st.eps[id].areSenders
  {
    hide InstallHome, Install, LentTo, LentFrom;
  }

  /** A process that is not blocked is in no queue. */
  lemma ReadyIsInNone(st: State, p: Pid, id: Eid)
    requires Inv(st) && !st.procs[p].run.Blocked?
    ensures p !in st.eps[id].queue
  {
    hide Counts, Waiters, Replies, TablesTidy;
    NotQueued(st, p);
  }

  /** No receiver of `id` is woken while whoever waited longest there goes on waiting. */
  lemma NobodyWoken(st: State, after: State, id: Eid)
    requires Sound(st)
    requires st.eps[id].queue != [] ==> after.procs[st.eps[id].queue[0]].run == st.procs[st.eps[id].queue[0]].run
    ensures WokenWord(st, after, id) == []
  {
  }

  /** The queues after one waiter of `a` was taken. */
  predicate PoppedAt(st: State, after: State, a: Eid) {
    && st.eps[a].queue != [] && after.eps[a].queue == st.eps[a].queue[1..] && after.eps[a].areSenders == st.eps[a].areSenders
    && forall b: Eid :: b != a ==> after.eps[b].queue == st.eps[b].queue && after.eps[b].areSenders == st.eps[b].areSenders
  }

  lemma OnlyThere(st: State, a: Eid, b: Eid)
    requires Inv(st) && st.eps[a].queue != []
    ensures st.eps[a].queue[0] < MAX_PROCESSES
    ensures b != a ==> st.eps[a].queue[0] !in st.eps[b].queue
    ensures st.eps[a].queue[0] !in st.eps[a].queue[1..]
  {
    hide Counts, Replies, AllLawful, TablesTidy;
    PopWaiters(st, a);
    var x := st.eps[a].queue[0];
    assert x !in Popped(st, a).eps[a].queue;
  }

  /** A send or call that meets the process that waited longest. */
  lemma MeetingCarries(st: State, op: Op, after: State, a: Eid, cur: Pid, letter: Letter, id: Eid)
    requires Inv(st) && Sound(st) && st.procs[cur].run.Ready? && PoppedAt(st, after, a) && !st.eps[a].areSenders
    requires (op.OpSend? || op.OpCall?) && SaidBy(st, op, id) == if id == a then [letter] else []
    requires var x := st.eps[a].queue[0];
      && x != cur && st.procs[x].run.Blocked?
      && after.procs[x].run.Ready? && after.procs[x].frame.status.Delivered? && after.procs[x].frame.payload == Some(letter.word)
    requires forall q: Pid :: q != st.eps[a].queue[0] && q != cur ==> after.procs[q] == st.procs[q]
    ensures Carried(st, op, after, id)
  {
    hide Inv, SaidBy, HeardIn, Unheard;
    OnlyThere(st, a, id);
    ReadyIsInNone(st, cur, id);
    HeardIsWoken(st, op, after, id);
    if id == a {
      MetCarries(st, op, after, a, letter);
    } else {
      NobodyWoken(st, after, id);
      QuietCarries(st, op, after, id);
    }
  }

  /** Where receivers wait nothing is unheard; the word said is the one heard. */
  lemma MetCarries(st: State, op: Op, after: State, a: Eid, letter: Letter)
    requires Sound(st) && PoppedAt(st, after, a) && !st.eps[a].areSenders
    requires SaidBy(st, op, a) == [letter] && HeardIn(st, op, after, a) == WokenWord(st, after, a)
    requires var x := st.eps[a].queue[0];
      && st.procs[x].run.Blocked? && after.procs[x].run.Ready?
      && after.procs[x].frame.status.Delivered? && after.procs[x].frame.payload == Some(letter.word)
    ensures Carried(st, op, after, a)
  {
    hide SaidBy, HeardIn, LetterOf;
  }

  /** A send or call that finds nobody waits itself. */
  lemma WaitingCarries(st: State, op: Op, after: State, a: Eid, cur: Pid, letter: Letter, id: Eid)
    requires Inv(st) && Sound(st) && st.procs[cur].run.Ready? && (st.eps[a].queue == [] || st.eps[a].areSenders)
    requires (op.OpSend? || op.OpCall?) && SaidBy(st, op, id) == if id == a then [letter] else []
    requires after.eps[a].queue == st.eps[a].queue + [cur] && after.eps[a].areSenders && LetterOf(after, cur) == letter
    requires forall b: Eid :: b != a ==> after.eps[b] == st.eps[b]
    requires forall q: Pid :: q != cur ==> after.procs[q] == st.procs[q]
    ensures Carried(st, op, after, id)
  {
    hide Inv, SaidBy, HeardIn, WokenWord, Unheard;
    ReadyIsInNone(st, cur, id);
    NobodyWoken(st, after, id);
    HeardIsWoken(st, op, after, id);
    if id == a {
      OneMoreLetter(st, after, id, cur);
    } else {
      QuietCarries(st, op, after, id);
    }
  }

  lemma HeardIsWoken(st: State, op: Op, after: State, id: Eid)
    requires Sound(st) && (op.OpSend? || op.OpCall?)
    ensures HeardIn(st, op, after, id) == WokenWord(st, after, id)
  {
  }

  lemma RefusedCarries(st: State, op: Op, id: Eid)
    requires Sound(st) && SaidBy(st, op, id) == [] && !op.OpRecv?
    ensures Carried(st, op, st, id)
  {
    NobodyWoken(st, st, id);
    QuietCarries(st, op, st, id);
  }

  lemma SendCarries(st: State, cur: Pid, slot: nat, msg: nat, cap: Option<nat>, id: Eid)
    requires Inv(st) && st.procs[cur].run.Ready? && Sound(st)
    ensures Carried(st, OpSend(cur, slot, msg, cap), SendStep(st, cur, slot, msg, cap).0, id)
  {
    hide Inv, Transfer, EndpointAt, Carried;
    var op, after := OpSend(cur, slot, msg, cap), SendStep(st, cur, slot, msg, cap).0;
    var at := EndpointAt(st, cur, slot, MaySend);
    if at.Some? && Peer(st, at.value, false).Some? {
      var x := st.eps[at.value].queue[0];
      var taken := Popped(st, at.value);
      PopKeeps(st, at.value, false);
      StillFree(st, at.value, cur, x);
      if cap.Some? { TransferLeavesProcs(taken, cur, cap.value, x); }
      MeetingCarries(st, op, after, at.value, cur, Letter(cur, msg, cap, false), id);
    } else if at.Some? && st.eps[at.value].receivers > 0 {
      WaitingCarries(st, op, after, at.value, cur, Letter(cur, msg, cap, false), id);
    } else {
      RefusedCarries(st, op, id);
    }
  }

  lemma CallCarries(st: State, cur: Pid, slot: nat, req: nat, id: Eid)
    requires Inv(st) && st.procs[cur].run.Ready? && Sound(st)
    ensures Carried(st, OpCall(cur, slot, req), CallStep(st, cur, slot, req).0, id)
  {
    hide Inv, Install, EndpointAt, Carried;
    var op, after := OpCall(cur, slot, req), CallStep(st, cur, slot, req).0;
    var at := EndpointAt(st, cur, slot, MaySend);
    if at.Some? && Peer(st, at.value, false).Some? {
      PopKeeps(st, at.value, false);
      StillFree(st, at.value, cur, st.eps[at.value].queue[0]);
      MeetingCarries(st, op, after, at.value, cur, Letter(cur, req, None, true), id);
    } else if at.Some? && st.eps[at.value].receivers > 0 {
      WaitingCarries(st, op, after, at.value, cur, Letter(cur, req, None, true), id);
    } else {
      RefusedCarries(st, op, id);
    }
  }

  lemma NothingSaid(st: State, op: Op, id: Eid)
    requires Sound(st) && !op.OpSend? && !op.OpCall?
    ensures SaidBy(st, op, id) == []
  {
  }

  /** A receive takes the letter that waited longest and gives its word. */
  lemma TakingCarries(st: State, op: Op, after: State, a: Eid, id: Eid)
    requires Inv(st) && Sound(st) && PoppedAt(st, after, a) && st.eps[a].areSenders && op.OpRecv?
    requires HeardIn(st, op, after, id) == if id == a then [st.procs[st.eps[a].queue[0]].msg] else []
    requires forall q: Pid :: q != st.eps[a].queue[0] ==> after.procs[q] == st.procs[q]
    ensures Carried(st, op, after, id)
  {
    hide Inv, SaidBy, HeardIn, Unheard;
    OnlyThere(st, a, id);
    NothingSaid(st, op, id);
    if id == a {
      OneLetterLess(st, after, id);
    } else {
      QuietCarries(st, op, after, id);
    }
  }

  lemma RecvCarries(st: State, cur: Pid, slot: nat, id: Eid)
    requires Inv(st) && st.procs[cur].run.Ready? && Sound(st)
    ensures Carried(st, OpRecv(cur, slot), RecvStep(st, cur, slot).0, id)
  {
    hide Inv, Install, Transfer, EndpointAt, Carried;
    var op, after := OpRecv(cur, slot), RecvStep(st, cur, slot).0;
    var at := EndpointAt(st, cur, slot, MayRecv);
    if at.Some? && Peer(st, at.value, true).Some? {
      var x := st.eps[at.value].queue[0];
      var taken := Popped(st, at.value);
      PopKeeps(st, at.value, true);
      if st.procs[x].cap.Some? { TransferLeavesProcs(taken, x, st.procs[x].cap.value, cur); }
      TakingCarries(st, op, after, at.value, id);
    } else {
      ReadyIsInNone(st, cur, id);
      NoneToHear(st, after, op, at, cur, id);
    }
  }

  /** A receive that finds no sender changes no letter. */
  lemma NoneToHear(st: State, after: State, op: Op, at: Option<nat>, cur: Pid, id: Eid)
    requires Sound(st) && op.OpRecv? && SaidBy(st, op, id) == [] && HeardIn(st, op, after, id) == []
    requires cur !in st.eps[id].queue && forall q: Pid :: LetterOf(after, q) == LetterOf(st, q)
    requires after.eps[id] == st.eps[id] || (at == Some(id) && (st.eps[id].queue == [] || !st.eps[id].areSenders) && !after.eps[id].areSenders)
    ensures Carried(st, op, after, id)
  {
    if after.eps[id] == st.eps[id] { QuietCarries(st, op, after, id); }
  }

  // ----- the operations that say nothing -----

  ghost predicate SameQueues(st: State, after: State) {
    forall id: Eid :: after.eps[id].queue == st.eps[id].queue && (st.eps[id].queue != [] ==> after.eps[id].areSenders == st.eps[id].areSenders)
  }

  lemma SilentCarries(st: State, op: Op, after: State, p: Pid, id: Eid)
    requires Sound(st) && !op.OpSend? && !op.OpRecv? && !op.OpCall? && SameQueues(st, after) && p !in st.eps[id].queue
    requires forall q: Pid :: q != p ==> LetterOf(after, q) == LetterOf(st, q)
    ensures Carried(st, op, after, id)
  {
    assert forall i :: 0 <= i < |st.eps[id].queue| ==> st.eps[id].queue[i] < MAX_PROCESSES;
    QuietCarries(st, op, after, id);
  }

  lemma KernelCarries(st: State, to: Pid, target: CapObject, rights: set<Right>, id: Eid)
    requires Inv(st) && Sound(st)
    ensures Carried(st, OpCreate, CreateEndpoint(st), id) && Carried(st, OpBoot, Boot(st), id)
    ensures Carried(st, OpMint(to, target, rights), Mint(st, to, target, rights), id)
  {
    hide Waiters, Replies, AllLawful, TablesTidy, NoneDangle, FreshTable, Install, Carried, CountsAgree;
    var free := FreeProc(st.procs);
    var p: Pid := if free.Some? then free.value else to;
    if FreeEndpoint(st.eps).Some? { SpareIsBlank(st.tables, st.eps, FreeEndpoint(st.eps).value); }
    if free.Some? {
      ReadyIsInNone(st, p, id);
      SilentCarries(st, OpBoot, Boot(st), p, id);
    } else {
      QuietCarries(st, OpBoot, Boot(st), id);
    }
    QuietCarries(st, OpCreate, CreateEndpoint(st), id);
    QuietCarries(st, OpMint(to, target, rights), Mint(st, to, target, rights), id);
  }

  lemma SpawnCarries(st: State, cur: Pid, transfer: Option<nat>, loads: bool, id: Eid)
    requires Inv(st) && st.procs[cur].run.Ready? && Sound(st)
    ensures Carried(st, OpSpawn(cur, transfer, loads), SpawnStep(st, cur, transfer, loads).0, id)
  {
    hide Waiters, Replies, AllLawful, TablesTidy, NoneDangle, FreshTable, Install, Carried, CountsAgree, LentFrom, LentToChild;
    var op, after := OpSpawn(cur, transfer, loads), SpawnStep(st, cur, transfer, loads).0;
    if FreeEndpoint(st.eps).Some? {
      SpareIsBlank(st.tables, st.eps, FreeEndpoint(st.eps).value);
      if FreeProc(st.procs).None? || !loads {
        FailedSpawnKeeps(st, cur, transfer, loads);
        QuietCarries(st, op, after, id);
      } else {
        ReadyIsInNone(st, FreeProc(st.procs).value, id);
        LaunchQueues(st, cur, transfer);
        SilentCarries(st, op, after, FreeProc(st.procs).value, id);
      }
    } else {
      QuietCarries(st, op, after, id);
    }
  }

  lemma LaunchQueues(st: State, cur: Pid, transfer: Option<nat>)
    requires Inv(st) && st.procs[cur].run.Ready? && FreeEndpoint(st.eps).Some? && FreeProc(st.procs).Some?
    ensures var after := SpawnStep(st, cur, transfer, true).0;
      && SameQueues(st, after) && forall q: Pid :: q != FreeProc(st.procs).value ==> after.procs[q] == st.procs[q]
  {
    hide Waiters, Replies, AllLawful, TablesTidy, NoneDangle, FreshTable, Install, CountsAgree, LentFrom, LentToChild;
    SpareIsBlank(st.tables, st.eps, FreeEndpoint(st.eps).value);
  }

  lemma ReplyCarries(st: State, cur: Pid, slot: nat, msg: nat, id: Eid)
    requires Inv(st) && Sound(st)
    ensures Carried(st, OpReply(cur, slot, msg), ReplyStep(st, cur, slot, msg).0, id)
  {
    hide Inv, Carried;
    QuietCarries(st, OpReply(cur, slot, msg), ReplyStep(st, cur, slot, msg).0, id);
  }

  lemma ReleaseCarries(st: State, cur: Pid, slot: nat, id: Eid)
    requires Inv(st) && Sound(st)
    ensures Carried(st, OpRelease(cur, slot), ReleaseStep(st, cur, slot).0, id)
  {
    hide Inv, Carried, Install, SendHome, LentTo;
    QuietCarries(st, OpRelease(cur, slot), ReleaseStep(st, cur, slot).0, id);
  }

  // ----- death -----

  /** The queue of `id` was emptied in the step. */
  predicate Cleared(st: State, after: State, id: Eid) {
    st.eps[id].queue != [] && after.eps[id].queue == []
  }

  lemma {:induction false} ReclaimLetters(st: State, p: Pid, slot: nat)
    requires slot <= MAX_CAPS
    ensures forall q: Pid :: LetterOf(ReclaimFrom(st, p, slot), q) == LetterOf(st, q)
    decreases MAX_CAPS - slot
  {
    if slot < MAX_CAPS {
      ReclaimOneLetters(st, p, slot);
      hide ReclaimOne;
      ReclaimLetters(ReclaimOne(st, p, slot), p, slot + 1);
    }
  }

  lemma ReclaimOneLetters(st: State, p: Pid, slot: nat)
    requires slot < MAX_CAPS
    ensures forall q: Pid :: LetterOf(ReclaimOne(st, p, slot), q) == LetterOf(st, q)
  {
    hide SendHome, ReclaimTarget;
  }

  lemma EndedLetters(st: State, p: Pid)
    ensures forall q: Pid :: q != p ==> LetterOf(Ended(st, p), q) == LetterOf(st, q)
  {
    hide Owes, Stuck, StrandedBy, Drained;
  }

  /** Death leaves the letters of an endpoint alone, or ends the wait of all its
      senders at once. */
  lemma DieLetters(st: State, p: Pid, id: Eid)
    requires Inv(st) && st.procs[p].run.Ready?
    ensures Unheard(Die(st, p), id) == if Cleared(st, Die(st, p), id) then [] else Unheard(st, id)
  {
    hide Replies, TablesTidy, AllLawful, ReclaimFrom, Ended, WaitersHold, Separate, CountsAgree, NoneDangle, Drained, StrandedBy, LetterOf;
    ReadyIsInNone(st, p, id);
    ReclaimKeeps(st, p, 0);
    ReclaimLetters(st, p, 0);
    var mid := ReclaimFrom(st, p, 0);
    EndedQueues(mid, p, id);
    EndedLetters(mid, p);
    assert Sound(st);
    assert forall i :: 0 <= i < |st.eps[id].queue| ==> st.eps[id].queue[i] < MAX_PROCESSES;
    if !Cleared(st, Die(st, p), id) && st.eps[id].queue != [] { SameLetters(st, Die(st, p), id); }
  }

  // ----- whole runs -----

  lemma StepCarries(st: State, op: Op, id: Eid)
    requires Inv(st) && Enabled(st, op) && Sound(st) && !op.OpDie?
    ensures Carried(st, op, Step(st, op), id)
  {
    hide Inv, Carried, SendStep, RecvStep, CallStep, ReplyStep, SpawnStep, ReleaseStep, CreateEndpoint, Boot, Mint;
    match op {
      case OpCreate => KernelCarries(st, 0, CpuTime(0), {}, id);
      case OpBoot => KernelCarries(st, 0, CpuTime(0), {}, id);
      case OpMint(p, target, rights) => KernelCarries(st, p, target, rights, id);
      case OpSend(p, slot, msg, cap) => SendCarries(st, p, slot, msg, cap, id);
      case OpRecv(p, slot) => RecvCarries(st, p, slot, id);
      case OpCall(p, slot, req) => CallCarries(st, p, slot, req, id);
      case OpReply(p, slot, msg) => ReplyCarries(st, p, slot, msg, id);
      case OpSpawn(p, transfer, loads) => SpawnCarries(st, p, transfer, loads, id);
      case OpRelease(p, slot) => ReleaseCarries(st, p, slot, id);
    }
  }

  predicate Taken(st: State, op: Op) {
    Enabled(st, op) && !StrandingRelease(st, op)
  }

  /** The words given to the receivers of an endpoint over a run, in order. */
  ghost function Heard(ops: seq<Op>, id: Eid): seq<nat>
    decreases |ops|
  {
    if ops == [] then []
    else
      var n := |ops| - 1;
      var st := Run(ops[..n]);
      InvIsSound(st);
      Heard(ops[..n], id) + if Taken(st, ops[n]) then HeardIn(st, ops[n], Run(ops), id) else []
  }

  /** The letters put on it, in order; those waiting when a death ends the wait of its
      senders are taken back by it. */
  ghost function Said(ops: seq<Op>, id: Eid): seq<Letter>
    decreases |ops|
  {
    if ops == [] then []
    else
      var n := |ops| - 1;
      var (st, said) := (Run(ops[..n]), Said(ops[..n], id));
      InvIsSound(st);
      if !Taken(st, ops[n]) then said
      else if ops[n].OpDie? && Cleared(st, Run(ops), id) then said[..Least(|said|, |Heard(ops[..n], id)|)]
      else said + SaidBy(st, ops[n], id)
  }

  function Least(a: nat, b: nat): (m: nat)
    ensures m <= a && m <= b && (m == a || m == b)
  {
    if a < b then a else b
  }

  /** The letters of a run are the ones heard, in order and once each, and then the ones
      whose senders still wait, in the order they wait. */
  lemma {:induction false} WordsArrive(ops: seq<Op>, id: Eid)
    ensures var (said, heard) := (Said(ops, id), Heard(ops, id));
      && |heard| <= |said| && (forall i :: 0 <= i < |heard| ==> heard[i] == said[i].word)
      && Unheard(Run(ops), id) == said[|heard|..]
    decreases |ops|
  {
    hide Inv, Step, SaidBy, HeardIn, Enabled, StrandingRelease, Unheard, Cleared;
    if ops == [] {
      NothingSaidYet(id);
    } else {
      var n := |ops| - 1;
      var st := Run(ops[..n]);
      WordsArrive(ops[..n], id);
      InvIsSound(st);
      if Taken(st, ops[n]) {
        assert Run(ops) == Step(st, ops[n]);
        if ops[n].OpDie? {
          DieStep(st, ops[n]);
          DieLetters(st, ops[n].dying, id);
          NothingInDeath(st, ops[n], Run(ops), id);
        } else {
          StepCarries(st, ops[n], id);
          CarriedOn(st, ops[n], Run(ops), id, Said(ops[..n], id), Heard(ops[..n], id));
        }
      } else {
        assert Run(ops) == st;
      }
    }
  }

  lemma NothingSaidYet(id: Eid)
    ensures Unheard(Run([]), id) == []
  {
    assert Run([]) == Initial();
  }

  lemma DieStep(st: State, op: Op)
    requires Inv(st) && Enabled(st, op) && op.OpDie? && Sound(st)
    ensures Step(st, op) == Die(st, op.dying) && st.procs[op.dying].run.Ready?
  {
    hide Inv, Die;
  }

  lemma NothingInDeath(st: State, op: Op, after: State, id: Eid)
    requires op.OpDie? && Sound(st)
    ensures SaidBy(st, op, id) == [] && HeardIn(st, op, after, id) == []
  {
  }

  lemma CarriedOn(st: State, op: Op, after: State, id: Eid, said: seq<Letter>, heard: seq<nat>)
    requires Sound(st) && Carried(st, op, after, id)
    requires |heard| <= |said| && (forall i :: 0 <= i < |heard| ==> heard[i] == said[i].word) && Unheard(st, id) == said[|heard|..]
    ensures var (more, h) := (said + SaidBy(st, op, id), heard + HeardIn(st, op, after, id));
      && |h| <= |more| && (forall i :: 0 <= i < |h| ==> h[i] == more[i].word) && Unheard(after, id) == more[|h|..]
  {
    hide SaidBy, HeardIn, Unheard;
    var now := Unheard(st, id) + SaidBy(st, op, id);
    assert said + SaidBy(st, op, id) == said[..|heard|] + now;
  }

  // ----- what comes with a word -----

  predicate SameGrant(a: Option<Capability>, b: Option<Capability>) {
    a.Some? && b.Some? && a.value.target == b.value.target && a.value.rights == b.value.rights
  }

  /** There is a place for the capability at its receiver. */
  predicate Fits(cap: Capability, t: Table, dst: nat) {
    HasRoom(t) || (cap.origin.Some? && cap.origin.value.lender == dst && AwaitsReturn(t, cap.origin.value.home))
  }

  /** `landing` names the slot of `dst`, empty before, where the capability that was in
      `slot` of `src` now is; it is `None` when there was no such capability or no place
      for it, and then `dst` has gained nothing. */
  predicate Brought(before: seq<Table>, after: seq<Table>, src: nat, slot: Option<nat>, dst: nat, landing: Option<nat>)
    requires |before| == |after| && src < |before| && dst < |before|
  {
    var given := if slot.Some? then Held(before[src], slot.value) else None;
    && (landing.Some? <==> given.Some? && Fits(given.value, before[dst], dst))
    && (landing.None? ==> after[dst] == before[dst])
    && (landing.Some? ==>
          && landing.value < MAX_CAPS && before[dst].caps[landing.value].None?
          && SameGrant(after[dst].caps[landing.value], given) && after[src].caps[slot.value].None?
          && forall k :: 0 <= k < MAX_CAPS && k != landing.value ==> after[dst].caps[k] == before[dst].caps[k])
  }

  lemma TransferBrings(st: State, src: Pid, slot: nat, dst: Pid)
    requires src != dst
    ensures var (after, landing) := Transfer(st, src, slot, dst);
      Brought(st.tables, after.tables, src, Some(slot), dst, landing)
  {
    hide FirstFree;
  }

  /** A send that meets a waiting receiver: the one that waited longest is ready, with
      exactly the word and the slot of whatever came with it. */
  lemma SendArrives(st: State, cur: Pid, slot: nat, msg: nat, cap: Option<nat>, id: Eid)
    requires Inv(st) && st.procs[cur].run.Ready? && Sound(st)
    requires EndpointAt(st, cur, slot, MaySend) == Some(id) && st.eps[id].queue != [] && !st.eps[id].areSenders
    ensures var (after, told) := SendStep(st, cur, slot, msg, cap); var x := st.eps[id].queue[0];
      && told.Some? && told.value.status == Delivered && x != cur
      && after.procs[x].run.Ready? && after.procs[x].frame.status == Delivered && after.procs[x].frame.payload == Some(msg)
      && Brought(st.tables, after.tables, cur, cap, x, after.procs[x].frame.landing)
      && forall q: Pid :: q != x ==> after.procs[q] == st.procs[q]
  {
    hide Inv, Transfer, Brought;
    var x := st.eps[id].queue[0];
    var taken := Popped(st, id);
    PopKeeps(st, id, false);
    StillFree(st, id, cur, x);
    if cap.Some? {
      TransferLeavesProcs(taken, cur, cap.value, x);
      TransferBrings(taken, cur, cap.value, x);
    } else {
      NothingBrought(st.tables, cur, x);
    }
  }

  lemma NothingBrought(tables: seq<Table>, src: nat, dst: nat)
    requires src < |tables| && dst < |tables|
    ensures Brought(tables, tables, src, None, dst, None)
  {
  }

  /** A receive that meets a waiting sender returns its word, and the slot of what came
      with it; a plain sender is released, a caller waits on and is named by the reply
      capability in that slot, if there was one to put it in. */
  lemma RecvBrings(st: State, cur: Pid, slot: nat, id: Eid)
    requires Inv(st) && st.procs[cur].run.Ready? && Sound(st)
    requires EndpointAt(st, cur, slot, MayRecv) == Some(id) && st.eps[id].queue != [] && st.eps[id].areSenders
    ensures var (after, told) := RecvStep(st, cur, slot); var x := st.eps[id].queue[0];
      && told.Some? && told.value.status == Delivered && told.value.payload == Some(st.procs[x].msg) && x != cur
      && (forall q: Pid :: q != x ==> after.procs[q] == st.procs[q])
      && (!st.procs[x].isCall ==>
            && after.procs[x].run.Ready? && after.procs[x].frame == Answer(Delivered, Some(0), None)
            && Brought(st.tables, after.tables, x, st.procs[x].cap, cur, told.value.landing))
      && (st.procs[x].isCall ==>
            after.procs[x] == st.procs[x] && ReplyLands(st.tables[cur], after.tables[cur], x, told.value.landing))
  {
    hide Inv, Transfer, Brought;
    var x := st.eps[id].queue[0];
    var taken := Popped(st, id);
    PopKeeps(st, id, true);
    StillFree(st, id, cur, x);
    if st.procs[x].isCall {
    } else if st.procs[x].cap.Some? {
      TransferLeavesProcs(taken, x, st.procs[x].cap.value, cur);
      TransferBrings(taken, x, st.procs[x].cap.value, cur);
    } else {
      NothingBrought(st.tables, x, cur);
    }
  }

  /** The right to answer `caller` is in the slot told, empty before, or there was no
      room for it. */
  predicate ReplyLands(before: Table, after: Table, caller: nat, landing: Option<nat>) {
    && (landing.Some? <==> HasRoom(before)) && (landing.None? ==> after == before)
    && (landing.Some? ==>
          && landing.value < MAX_CAPS && before.caps[landing.value].None? && RepliesTo(after.caps[landing.value], caller)
          && forall k :: 0 <= k < MAX_CAPS && k != landing.value ==> after.caps[k] == before.caps[k])
  }

  /** A call that meets a waiting server: the server is ready with exactly the request
      and the slot of the right to answer it; the caller waits. */
  lemma CallArrives(st: State, cur: Pid, slot: nat, req: nat, id: Eid)
    requires Inv(st) && st.procs[cur].run.Ready? && Sound(st)
    requires EndpointAt(st, cur, slot, MaySend) == Some(id) && st.eps[id].queue != [] && !st.eps[id].areSenders
    ensures var (after, told) := CallStep(st, cur, slot, req); var x := st.eps[id].queue[0];
      && told.None? && after.procs[cur].run.Blocked? && x != cur
      && after.procs[x].run.Ready? && after.procs[x].frame.status == Delivered && after.procs[x].frame.payload == Some(req)
      && ReplyLands(st.tables[x], after.tables[x], cur, after.procs[x].frame.landing)
      && forall q: Pid :: q != x && q != cur ==> after.procs[q] == st.procs[q]
  {
    hide Inv;
    PopKeeps(st, id, false);
    StillFree(st, id, cur, st.eps[id].queue[0]);
  }

  // ----- who is told that its peer died -----

  predicate IsDead(told: Outcome) {
    told.Some? && told.value.status.PeerDied?
  }

  /** Send, call and receive report a dead peer if and only if no capability anywhere
      could ever meet them, and an error if and only if the slot resolves to nothing. */
  lemma DeadPeerExactly(st: State, cur: Pid, slot: nat, word: nat, cap: Option<nat>)
    requires Inv(st) && Sound(st)
    ensures var at := EndpointAt(st, cur, slot, MaySend);
      var (sent, called) := (SendStep(st, cur, slot, word, cap).1, CallStep(st, cur, slot, word).1);
      && (IsDead(sent) <==> at.Some? && Naming(st.tables, at.value, MayRecv) == {})
      && (IsDead(called) <==> at.Some? && Naming(st.tables, at.value, MayRecv) == {})
      && (sent == Some(Answer(Failed, None, None)) <==> at.None?) && (called == Some(Answer(Failed, None, None)) <==> at.None?)
    ensures var at := EndpointAt(st, cur, slot, MayRecv); var got := RecvStep(st, cur, slot).1;
      && (IsDead(got) <==> at.Some? && Naming(st.tables, at.value, MaySend) == {})
      && (got == Some(Answer(Failed, None, None)) <==> at.None?)
  {
    hide Naming, NoneDangle, Replies, AllLawful, TablesTidy, WaitersHold, Separate, EndpointAt, Transfer, Install;
    var s, r := EndpointAt(st, cur, slot, MaySend), EndpointAt(st, cur, slot, MayRecv);
    if s.Some? {
      CountedRight(st, s.value);
      if Peer(st, s.value, false).Some? { WaiterIsNamed(st, s.value, false); }
    }
    if r.Some? {
      CountedRight(st, r.value);
      if Peer(st, r.value, true).Some? { WaiterIsNamed(st, r.value, true); }
    }
  }

  lemma WaiterIsNamed(st: State, id: Eid, wantSenders: bool)
    requires Inv(st) && Peer(st, id, wantSenders).Some?
    ensures Naming(st.tables, id, Side(wantSenders)) != {}
  {
    hide Inv;
    PopKeeps(st, id, wantSenders);
    var x := st.eps[id].queue[0];
    var s :| 0 <= s < MAX_CAPS && Names(st.tables[x].caps[s], id, Side(wantSenders));
    InNaming(st.tables, id, Side(wantSenders));
    assert NamesThere(st.tables, (x, s), id, Side(wantSenders));
  }

  lemma CountedRight(st: State, id: Eid)
    requires Inv(st)
    ensures st.eps[id].receivers == 0 <==> Naming(st.tables, id, MayRecv) == {}
    ensures st.eps[id].senders == 0 <==> Naming(st.tables, id, MaySend) == {}
    ensures HasCounterpart(st.eps[id])
  {
    hide Naming, NoneDangle, Replies, AllLawful, TablesTidy, WaitersHold, Separate;
  }
}
