/** One kernel entry of synchronous IPC as one step of a state machine: what
    kernel/src/ipc.rs, and the process-table code it calls in
    kernel/src/scheduler.rs and kernel/src/syscall.rs, do to the capability
    tables, the endpoints and the blocked processes. `Ready` covers a running
    process too; a step is always taken by a process that is not blocked. */
module IpcModel {
  import opened Prelude
  import opened Capabilities
  import opened WaitQueues

  const INITIAL_CPU_BUDGET: nat := 1024

  datatype Status = Delivered | Failed | PeerDied

  /** What a blocking call returns: rax, rsi and rdx. `payload` is `None` where the
      path leaves rsi alone, `landing` is `None` for NO_CAP. */
  datatype Answer = Answer(status: Status, payload: Option<nat>, landing: Option<nat>)

  datatype RunState = Empty | Ready | Blocked

  datatype Proc = Proc(run: RunState, msg: nat, cap: Option<nat>, isCall: bool, landing: Option<nat>, frame: Answer)

  datatype Endpoint = Endpoint(inUse: bool, queue: seq<nat>, areSenders: bool, senders: nat, receivers: nat)

  /** What happened to the process in one table slot. */
  datatype Event =
    | Started
    | Exited
    | ParkedInQueue
    | ParkedCalling
    | RequestTaken
    | Rendezvous
    | Replied
    | Bereaved

  datatype Machine = Machine(tables: seq<Table>, procs: seq<Proc>, eps: seq<Endpoint>, history: seq<seq<Event>>)

  function NoAnswer(): Answer { Answer(Delivered, None, None) }
  function NoProc(): Proc { Proc(Empty, 0, None, false, None, NoAnswer()) }
  function NoEndpoint(): Endpoint { Endpoint(false, [], false, 0, 0) }

  type State = m: Machine |
      && |m.tables| == |m.procs| == |m.history| == MAX_PROCESSES
      && |m.eps| == MAX_ENDPOINTS
    witness Machine(seq(MAX_PROCESSES, _ => NoCaps()), seq(MAX_PROCESSES, _ => NoProc()),
                    seq(MAX_ENDPOINTS, _ => NoEndpoint()), seq(MAX_PROCESSES, _ => []))

  type Pid = p: nat | p < MAX_PROCESSES
  type Eid = e: nat | e < MAX_ENDPOINTS

  function Initial(): State {
    Machine(seq(MAX_PROCESSES, _ => NoCaps()), seq(MAX_PROCESSES, _ => NoProc()),
            seq(MAX_ENDPOINTS, _ => NoEndpoint()), seq(MAX_PROCESSES, _ => []))
  }

  // ----- endpoint reference counts -----

  predicate Names(c: Option<Capability>, id: nat, right: Right) {
    c.Some? && c.value.target == EndpointCap(id) && right in c.value.rights
  }

  function One(b: bool): nat { if b then 1 else 0 }

  function Minus(a: nat, b: nat): nat { if a < b then 0 else a - b }

  function Counted(e: Endpoint, rights: set<Right>): Endpoint {
    e.(senders := e.senders + One(MaySend in rights), receivers := e.receivers + One(MayRecv in rights))
  }

  function Uncounted(e: Endpoint, rights: set<Right>): Endpoint {
    e.(senders := Minus(e.senders, One(MaySend in rights)), receivers := Minus(e.receivers, One(MayRecv in rights)))
  }

  predicate Unreferenced(e: Endpoint) {
    e.senders == 0 && e.receivers == 0 && e.queue == []
  }

  /** `note_cap_added`. */
  function Noted(eps: seq<Endpoint>, cap: Capability): (r: seq<Endpoint>)
    ensures |r| == |eps|
  {
    if cap.target.EndpointCap? && cap.target.id < |eps|
    then eps[cap.target.id := Counted(eps[cap.target.id], cap.rights)] else eps
  }

  /** `note_cap_removed(_, false)`: the capability is in transit. */
  function Unnoted(eps: seq<Endpoint>, cap: Capability): (r: seq<Endpoint>)
    ensures |r| == |eps|
  {
    if cap.target.EndpointCap? && cap.target.id < |eps|
    then eps[cap.target.id := Uncounted(eps[cap.target.id], cap.rights)] else eps
  }

  /** `note_cap_removed(_, true)`: the capability is gone for good. */
  function Dropped(eps: seq<Endpoint>, cap: Capability): (r: seq<Endpoint>)
    ensures |r| == |eps|
  {
    if cap.target.EndpointCap? && cap.target.id < |eps| then
      var e := Uncounted(eps[cap.target.id], cap.rights);
      eps[cap.target.id := if Unreferenced(e) then NoEndpoint() else e]
    else eps
  }

  function FreeEndpoint(eps: seq<Endpoint>, from: nat := 0): (r: Option<nat>)
    requires from <= |eps|
    ensures r.Some? ==> from <= r.value < |eps| && !eps[r.value].inUse
    ensures forall i :: from <= i < (if r.Some? then r.value else |eps|) ==> eps[i].inUse
    decreases |eps| - from
  {
    if from == |eps| then None else if !eps[from].inUse then Some(from) else FreeEndpoint(eps, from + 1)
  }

  function FreeProc(procs: seq<Proc>, from: nat := 0): (r: Option<nat>)
    requires from <= |procs|
    ensures r.Some? ==> from <= r.value < |procs| && procs[r.value].run.Empty?
    ensures forall i :: from <= i < (if r.Some? then r.value else |procs|) ==> !procs[i].run.Empty?
    decreases |procs| - from
  {
    if from == |procs| then None else if procs[from].run.Empty? then Some(from) else FreeProc(procs, from + 1)
  }

  // ----- small state changes -----

  function WithTable(st: State, p: Pid, t: Table): State {
    st.(tables := st.tables[p := t])
  }

  function WithQueue(st: State, id: Eid, queue: seq<nat>, areSenders: bool): State {
    st.(eps := st.eps[id := st.eps[id].(queue := queue, areSenders := areSenders)])
  }

  function Happened(st: State, p: Pid, e: Event): State {
    st.(history := st.history[p := st.history[p] + [e]])
  }

  /** `wake_with`. */
  function Wake(st: State, p: Pid, answer: Answer, e: Event): State {
    Happened(st.(procs := st.procs[p := st.procs[p].(run := Ready, frame := answer)]), p, e)
  }

  /** `set_pending` and `block_current`. */
  function Park(st: State, p: Pid, e: Event): State {
    Happened(st.(procs := st.procs[p := st.procs[p].(run := Blocked)]), p, e)
  }

  function Pending(st: State, p: Pid, msg: nat, cap: Option<nat>, isCall: bool): State {
    st.(procs := st.procs[p := st.procs[p].(msg := msg, cap := cap, isCall := isCall)])
  }

  function TakeLanding(st: State, p: Pid): State {
    st.(procs := st.procs[p := st.procs[p].(landing := None)])
  }

  function Enqueued(st: State, id: Eid, p: Pid, areSenders: bool): State {
    WithQueue(st, id, st.eps[id].queue + [p], areSenders)
  }

  function Popped(st: State, id: Eid): State
    requires st.eps[id].queue != []
  {
    WithQueue(st, id, st.eps[id].queue[1..], st.eps[id].areSenders)
  }

  /** The waiter `take_waiting` would return. */
  function Peer(st: State, id: Eid, wantSenders: bool): Option<nat> {
    if st.eps[id].queue != [] && st.eps[id].areSenders == wantSenders then Some(st.eps[id].queue[0]) else None
  }

  /** `endpoint_id_for`: the endpoint a capability slot names, with this right. */
  function EndpointAt(st: State, p: Pid, slot: nat, right: Right): (r: Option<nat>)
    ensures r.Some? ==> r.value < MAX_ENDPOINTS && st.eps[r.value].inUse
    ensures r.Some? ==> slot < MAX_CAPS && Names(st.tables[p].caps[slot], r.value, right)
  {
    match Held(st.tables[p], slot)
    case Some(cap) =>
      if right in cap.rights && cap.target.EndpointCap? && cap.target.id < MAX_ENDPOINTS && st.eps[cap.target.id].inUse
      then Some(cap.target.id) else None
    case None => None
  }

  // ----- the operations -----

  /** Move the capability in `slot` from `src` to `dst`: both transfer functions,
      whichever side arrived first. */
  function Transfer(st: State, src: Pid, slot: nat, dst: Pid): (State, Option<nat>) {
    match Held(st.tables[src], slot)
    case None => (st, None)
    case Some(cap) =>
      var without := LentFrom(st.tables[src], slot);
      var eps := Noted(Unnoted(st.eps, cap), cap);
      var (there, landing) := InstallHome(st.tables[dst], LentTo(cap, Origin(src, slot), dst), cap.origin, dst);
      if landing.Some? then (st.(tables := st.tables[src := without][dst := there], eps := eps), landing)
      else (st.(tables := st.tables[src := Install(without, cap).0], eps := eps), None)
  }

  /** The result of a step for the process that took it; `None` when it parked. */
  type Outcome = Option<Answer>

  function SendStep(st: State, cur: Pid, slot: nat, msg: nat, cap: Option<nat>): (State, Outcome)
    requires Sound(st)
  {
    match EndpointAt(st, cur, slot, MaySend)
    case None => (st, Some(Answer(Failed, None, None)))
    case Some(id) =>
      match Peer(st, id, false)
      case Some(receiver) =>
        var taken := Popped(st, id);
        var (moved, landing) := if cap.Some? then Transfer(taken, cur, cap.value, receiver) else (taken, None);
        (Wake(moved, receiver, Answer(Delivered, Some(msg), landing), Rendezvous), Some(Answer(Delivered, None, None)))
      case None =>
        if st.eps[id].receivers == 0 then (st, Some(Answer(PeerDied, None, None)))
        else (Park(Enqueued(Pending(st, cur, msg, cap, false), id, cur, true), cur, ParkedInQueue), None)
  }

  function RecvStep(st: State, cur: Pid, slot: nat): (State, Outcome)
    requires Sound(st)
  {
    match EndpointAt(st, cur, slot, MayRecv)
    case None => (st, Some(Answer(Failed, None, None)))
    case Some(id) =>
      match Peer(st, id, true)
      case Some(sender) =>
        var taken := Popped(st, id);
        var from := st.procs[sender];
        if from.isCall then
          var (table, landing) := Install(st.tables[cur], Capability(ReplyTo(sender), {}, None));
          (Happened(WithTable(taken, cur, table), sender, RequestTaken), Some(Answer(Delivered, Some(from.msg), landing)))
        else
          var (moved, landing) := if from.cap.Some? then Transfer(taken, sender, from.cap.value, cur) else (taken, None);
          (Wake(moved, sender, Answer(Delivered, Some(0), None), Rendezvous), Some(Answer(Delivered, Some(from.msg), landing)))
      case None =>
        if st.eps[id].senders == 0
        then (TakeLanding(st, cur), Some(Answer(PeerDied, None, st.procs[cur].landing)))
        else (Park(Enqueued(st, id, cur, false), cur, ParkedInQueue), None)
  }

  function CallStep(st: State, cur: Pid, slot: nat, req: nat): (State, Outcome)
    requires Sound(st)
  {
    match EndpointAt(st, cur, slot, MaySend)
    case None => (st, Some(Answer(Failed, None, None)))
    case Some(id) =>
      match Peer(st, id, false)
      case Some(server) =>
        var taken := Popped(st, id);
        var (table, landing) := Install(st.tables[server], Capability(ReplyTo(cur), {}, None));
        var told := Wake(WithTable(taken, server, table), server, Answer(Delivered, Some(req), landing), Rendezvous);
        (Happened(Park(told, cur, ParkedCalling), cur, RequestTaken), None)
      case None =>
        if st.eps[id].receivers == 0 then (st, Some(Answer(PeerDied, None, None)))
        else (Park(Enqueued(Pending(st, cur, req, None, true), id, cur, true), cur, ParkedCalling), None)
  }

  function ReplyStep(st: State, cur: Pid, slot: nat, msg: nat): (State, Outcome) {
    match Held(st.tables[cur], slot)
    case Some(cap) =>
      if cap.target.ReplyTo? && cap.target.caller < MAX_PROCESSES && st.procs[cap.target.caller].run.Blocked? then
        var woken := Wake(st, cap.target.caller, Answer(Delivered, Some(msg), None), Replied);
        (WithTable(woken, cur, Without(st.tables[cur], slot)), Some(Answer(Delivered, None, None)))
      else (st, Some(Answer(Failed, None, None)))
    case None => (st, Some(Answer(Failed, None, None)))
  }

  /** Queues hold only process slots: what the steps need to index the tables. */
  ghost predicate Sound(st: State) {
    forall id, i :: 0 <= id < MAX_ENDPOINTS && 0 <= i < |st.eps[id].queue| ==> st.eps[id].queue[i] < MAX_PROCESSES
  }

  // ----- death -----

  /** Send one borrowed capability of the dying `p` home, and remember where it
      landed for the lender. */
  function ReclaimOne(st: State, p: Pid, slot: nat): State
    requires slot < MAX_CAPS
  {
    match st.tables[p].caps[slot]
    case None => st
    case Some(cap) =>
      match ReclaimTarget(cap, p)
      case None => st
      case Some(target) =>
        var lender := target.0.lender;
        if lender >= MAX_PROCESSES || lender == p || st.procs[lender].run.Empty? then st
        else
          var (table, landing) := SendHome(st.tables[lender], target.0.home, target.1);
          if landing.None? then st
          else
            var pr := st.procs[lender];
            var seen := if pr.landing.None? then landing else pr.landing;
            st.(tables := st.tables[lender := table], procs := st.procs[lender := pr.(landing := seen)])
  }

  /** `reclaim_lent_caps`, from `slot` on. */
  function ReclaimFrom(st: State, p: Pid, slot: nat): State
    requires slot <= MAX_CAPS
    decreases MAX_CAPS - slot
  {
    if slot == MAX_CAPS then st else ReclaimFrom(ReclaimOne(st, p, slot), p, slot + 1)
  }

  /** How many of a table's capabilities carry this right to this endpoint. */
  ghost function Tally(t: Table, id: nat, right: Right): nat {
    |TallySet(t, id, right)|
  }

  ghost function TallySet(t: Table, id: nat, right: Right): set<nat> {
    set s | 0 <= s < MAX_CAPS && Names(t.caps[s], id, right)
  }

  /** `death_strands_peers`. */
  predicate Strands(e: Endpoint, dyingSenders: nat, dyingReceivers: nat) {
    || (dyingSenders > 0 && Minus(e.senders, dyingSenders) == 0)
    || (dyingReceivers > 0 && Minus(e.receivers, dyingReceivers) == 0)
  }

  ghost predicate StrandedBy(st: State, p: Pid, id: Eid) {
    st.eps[id].inUse && Strands(st.eps[id], Tally(st.tables[p], id, MaySend), Tally(st.tables[p], id, MayRecv))
  }

  /** `p` holds an unanswered reply capability for `c`. */
  ghost predicate Owes(st: State, p: Pid, c: nat) {
    exists s :: 0 <= s < MAX_CAPS && ReplyIn(st.tables[p], s, c)
  }

  ghost predicate ReplyIn(t: Table, s: nat, c: nat)
    requires s < MAX_CAPS
  {
    t.caps[s].Some? && t.caps[s].value.target == ReplyTo(c)
  }

  ghost predicate Stuck(st: State, p: Pid, c: Pid) {
    exists id: Eid :: StrandedBy(st, p, id) && c in st.eps[id].queue
  }

  /** What `reap_dying` leaves of one process: a caller owed a reply is woken
      without its landing, a stranded waiter with it. */
  ghost function ReapedProc(st: State, p: Pid, c: Pid): Proc {
    var pr := st.procs[c];
    if Owes(st, p, c) && pr.run.Blocked?
    then pr.(run := Ready, landing := None, frame := Answer(PeerDied, Some(0), None))
    else if Stuck(st, p, c)
    then pr.(run := Ready, landing := None, frame := Answer(PeerDied, Some(0), pr.landing))
    else pr
  }

  ghost function Reaped(st: State, p: Pid): State {
    Machine(
      st.tables,
      seq(MAX_PROCESSES, c requires 0 <= c < MAX_PROCESSES => ReapedProc(st, p, c)),
      seq(MAX_ENDPOINTS, id requires 0 <= id < MAX_ENDPOINTS =>
        if StrandedBy(st, p, id) then st.eps[id].(queue := []) else st.eps[id]),
      seq(MAX_PROCESSES, c requires 0 <= c < MAX_PROCESSES =>
        if (Owes(st, p, c) && st.procs[c].run.Blocked?) || Stuck(st, p, c) then st.history[c] + [Bereaved] else st.history[c]))
  }

  /** `clear_origins_naming`: every table but the dying one. */
  function ClaimsDropped(st: State, p: Pid): State {
    st.(tables := seq(MAX_PROCESSES, q requires 0 <= q < MAX_PROCESSES =>
      if q == p then st.tables[q] else ClaimsCleared(st.tables[q], p)))
  }

  ghost predicate NamesAny(t: Table, id: nat) {
    exists s :: 0 <= s < MAX_CAPS && NamesAt(t, s, id)
  }

  ghost predicate NamesAt(t: Table, s: nat, id: nat)
    requires s < MAX_CAPS
  {
    t.caps[s].Some? && t.caps[s].value.target == EndpointCap(id)
  }

  /** One endpoint after every capability in `t` has been dropped for good. */
  ghost function Drained(e: Endpoint, t: Table, id: nat): Endpoint {
    var left := e.(senders := Minus(e.senders, Tally(t, id, MaySend)), receivers := Minus(e.receivers, Tally(t, id, MayRecv)));
    if NamesAny(t, id) && Unreferenced(left) then NoEndpoint() else left
  }

  /** `teardown`, and the emptied table slot. */
  ghost function Buried(st: State, p: Pid): State {
    Happened(Machine(
      st.tables[p := NoCaps()],
      st.procs[p := NoProc()],
      seq(MAX_ENDPOINTS, id requires 0 <= id < MAX_ENDPOINTS => Drained(st.eps[id], st.tables[p], id)),
      st.history), p, Exited)
  }

  /** What follows reclamation: peers woken, claims dropped, resources returned. */
  ghost function Ended(st: State, p: Pid): State {
    Buried(ClaimsDropped(Reaped(st, p), p), p)
  }

  /** `on_exit`. */
  ghost function Die(st: State, p: Pid): State {
    Ended(ReclaimFrom(st, p, 0), p)
  }

  // ----- the kernel's own minting, spawn and release -----

  function CreateEndpoint(st: State): State {
    match FreeEndpoint(st.eps)
    case Some(id) => st.(eps := st.eps[id := NoEndpoint().(inUse := true)])
    case None => st
  }

  function FreshTable(): Table {
    Put(NoCaps(), 0, Capability(CpuTime(INITIAL_CPU_BUDGET), {MayConsume}, None))
  }

  /** `setup_process` into the first empty slot. */
  function Boot(st: State): State {
    match FreeProc(st.procs)
    case Some(p) => Happened(st.(tables := st.tables[p := FreshTable()], procs := st.procs[p := NoProc().(run := Ready)]), p, Started)
    case None => st
  }

  /** A kernel mint into a live process. Endpoint grants carry a direction and name
      an endpoint that exists; reply capabilities are minted by calls alone. */
  predicate MayMint(st: State, target: CapObject, rights: set<Right>) {
    match target
    case EndpointCap(id) => id < MAX_ENDPOINTS && st.eps[id].inUse && (MaySend in rights || MayRecv in rights)
    case ReplyTo(_) => false
    case _ => true
  }

  function Mint(st: State, p: Pid, target: CapObject, rights: set<Right>): State {
    var cap := Capability(target, rights, None);
    var (table, landing) := Install(st.tables[p], cap);
    if landing.Some? then st.(tables := st.tables[p := table], eps := Noted(st.eps, cap)) else st
  }

  /** The borrowed capability as the child has it: a claim survives the hop. */
  function LentToChild(cap: Capability, source: Origin): Capability {
    if cap.origin.Some? then cap else cap.(origin := Some(source))
  }

  /** `spawn_scheduled`: a result endpoint, a child holding its send half and
      perhaps one capability of the caller's, and the receive half for the caller.
      `loads` says whether the image could be loaded. */
  function SpawnStep(st: State, cur: Pid, transfer: Option<nat>, loads: bool): (State, Option<nat>) {
    match FreeEndpoint(st.eps)
    case None => (st, None)
    case Some(ep) =>
      var opening := st.eps[ep := NoEndpoint().(inUse := true)];
      var taken := if transfer.Some? then Held(st.tables[cur], transfer.value) else None;
      var child := FreeProc(st.procs);
      if child.None? || !loads then
        if taken.None? then (st.(eps := opening[ep := NoEndpoint()]), None)
        else
          var eps := Unnoted(opening, taken.value);
          (st.(tables := st.tables[cur := TakenBack(LentFrom(st.tables[cur], transfer.value), transfer.value, taken.value)],
               eps := Noted(eps[ep := if Unreferenced(eps[ep]) then NoEndpoint() else eps[ep]], taken.value)), None)
      else
        var c := child.value;
        var send := Capability(EndpointCap(ep), {MaySend}, None);
        var recv := Capability(EndpointCap(ep), {MayRecv}, None);
        var granted := Put(FreshTable(), 1, send);
        var started := Happened(st.(procs := st.procs[c := NoProc().(run := Ready)]), c, Started);
        var (mine, theirs, eps) :=
          if taken.None? then (st.tables[cur], granted, Noted(opening, send))
          else (LentFrom(st.tables[cur], transfer.value),
                Put(granted, 2, LentToChild(taken.value, Origin(cur, transfer.value))),
                Noted(Noted(Unnoted(opening, taken.value), send), taken.value));
        var (table, handle) := Install(mine, recv);
        (started.(tables := st.tables[cur := table][c := theirs],
                  eps := if handle.Some? then Noted(eps, recv) else eps), handle)
  }

  /** `cap_release`. */
  function ReleaseStep(st: State, cur: Pid, slot: nat): (State, bool) {
    match Held(st.tables[cur], slot)
    case None => (st, false)
    case Some(cap) =>
      var without := WithTable(st, cur, Without(st.tables[cur], slot));
      match OnRelease(cap)
      case Refuse => (st, false)
      case DropEndpoint => (without.(eps := Dropped(st.eps, cap)), true)
      case ReclaimTo(o) =>
        if o.lender >= MAX_PROCESSES || without.procs[o.lender].run.Empty? then (without, true)
        else
          var (table, _) := SendHome(without.tables[o.lender], o.home, LentTo(cap, Origin(cur, o.home), o.lender));
          (WithTable(without, o.lender, table), true)
      case _ => (without, true)
  }

  // ----- runs -----

  datatype Op =
    | OpCreate
    | OpBoot
    | OpMint(to: Pid, target: CapObject, rights: set<Right>)
    | OpSend(sender: Pid, sendOn: nat, msg: nat, cap: Option<nat>)
    | OpRecv(receiver: Pid, recvOn: nat)
    | OpCall(caller: Pid, callOn: nat, req: nat)
    | OpReply(server: Pid, replySlot: nat, answer: nat)
    | OpSpawn(parent: Pid, transfer: Option<nat>, loads: bool)
    | OpRelease(holder: Pid, slot: nat)
    | OpDie(dying: Pid)

  /** Who takes the step; the kernel for the first two. */
  function Actor(op: Op): Option<Pid> {
    match op
    case OpCreate => None
    case OpBoot => None
    case OpMint(p, _, _) => Some(p)
    case OpSend(p, _, _, _) => Some(p)
    case OpRecv(p, _) => Some(p)
    case OpCall(p, _, _) => Some(p)
    case OpReply(p, _, _) => Some(p)
    case OpSpawn(p, _, _) => Some(p)
    case OpRelease(p, _) => Some(p)
    case OpDie(p) => Some(p)
  }

  /** An operation can be taken when its process is not blocked. */
  predicate Enabled(st: State, op: Op) {
    && (Actor(op).Some? ==> st.procs[Actor(op).value].run.Ready?)
    && (op.OpMint? ==> MayMint(st, op.target, op.rights))
  }

  ghost function Step(st: State, op: Op): State
    requires Sound(st)
  {
    if !Enabled(st, op) then st
    else match op
      case OpCreate => CreateEndpoint(st)
      case OpBoot => Boot(st)
      case OpMint(p, target, rights) => Mint(st, p, target, rights)
      case OpSend(p, slot, msg, cap) => SendStep(st, p, slot, msg, cap).0
      case OpRecv(p, slot) => RecvStep(st, p, slot).0
      case OpCall(p, slot, req) => CallStep(st, p, slot, req).0
      case OpReply(p, slot, msg) => ReplyStep(st, p, slot, msg).0
      case OpSpawn(p, transfer, loads) => SpawnStep(st, p, transfer, loads).0
      case OpRelease(p, slot) => ReleaseStep(st, p, slot).0
      case OpDie(p) => Die(st, p)
  }
}
