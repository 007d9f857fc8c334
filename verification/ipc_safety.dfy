/** What every reachable state of the IPC machine keeps: reference counts, pairing
    of waiters with live counterparts, one-shot replies, and a lawful history for
    every process slot. */
module IpcSafety {
  import opened Prelude
  import opened Capabilities
  import opened WaitQueues
  import opened IpcModel

  // ----- histories -----

  datatype Phase = Dead | Live | InQueue | Calling | Owed | Broken

  /** What one event does to a process slot. A wake-up is lawful only for the kind of
      wait it ends, and nothing but a start can follow an exit. */
  function Next(ph: Phase, e: Event): Phase {
    match (ph, e)
    case (Dead, Started) => Live
    case (Live, Exited) => Dead
    case (Live, ParkedInQueue) => InQueue
    case (Live, ParkedCalling) => Calling
    case (InQueue, Rendezvous) => Live
    case (Calling, RequestTaken) => Owed
    case (Owed, Replied) => Live
    case (InQueue, Bereaved) => Live
    case (Calling, Bereaved) => Live
    case (Owed, Bereaved) => Live
    case _ => Broken
  }

  function PhaseOf(h: seq<Event>): Phase {
    if h == [] then Dead else Next(PhaseOf(h[..|h| - 1]), h[|h| - 1])
  }

  lemma PhaseStep(h: seq<Event>, e: Event)
    ensures PhaseOf(h + [e]) == Next(PhaseOf(h), e)
  {
    assert (h + [e])[..|h|] == h;
  }

  // ----- the invariant -----

  function Queues(eps: seq<Endpoint>): (r: seq<seq<nat>>)
    ensures |r| == |eps| && forall i :: 0 <= i < |eps| ==> r[i] == eps[i].queue
  {
    seq(|eps|, i requires 0 <= i < |eps| => eps[i].queue)
  }

  ghost predicate Queued(eps: seq<Endpoint>, p: nat) {
    exists id :: 0 <= id < |eps| && p in eps[id].queue
  }

  /** The table slots holding a capability with this right to this endpoint. */
  ghost function Naming(tables: seq<Table>, id: nat, right: Right): set<(nat, nat)> {
    set a | a in Places(|tables|) && NamesThere(tables, a, id, right)
  }

  ghost function Places(n: nat): set<(nat, nat)> {
    set p: nat, s: nat | p < n && s < MAX_CAPS :: (p, s)
  }

  ghost predicate NamesThere(tables: seq<Table>, a: (nat, nat), id: nat, right: Right) {
    a.0 < |tables| && a.1 < MAX_CAPS && Names(tables[a.0].caps[a.1], id, right)
  }

  lemma InNaming(tables: seq<Table>, id: nat, right: Right)
    ensures forall a :: a in Naming(tables, id, right) <==> NamesThere(tables, a, id, right)
  {
  }

  /** Reference counts are the sizes of those sets; a free endpoint is blank. */
  ghost predicate CountsAgree(tables: seq<Table>, eps: seq<Endpoint>) {
    forall id :: 0 <= id < |eps| ==>
      && eps[id].senders == |Naming(tables, id, MaySend)|
      && eps[id].receivers == |Naming(tables, id, MayRecv)|
      && (!eps[id].inUse ==> eps[id] == NoEndpoint())
  }

  predicate NamesLive(c: Option<Capability>, eps: seq<Endpoint>) {
    c.Some? && c.value.target.EndpointCap? ==>
      && c.value.target.id < |eps| && eps[c.value.target.id].inUse
      && (MaySend in c.value.rights || MayRecv in c.value.rights)
  }

  /** No capability names a free, and so no capability a recycled, endpoint. */
  ghost predicate NoneDangle(tables: seq<Table>, eps: seq<Endpoint>) {
    forall p, s :: 0 <= p < |tables| && 0 <= s < MAX_CAPS ==> NamesLive(tables[p].caps[s], eps)
  }

  function Side(areSenders: bool): Right { if areSenders then MaySend else MayRecv }

  /** Someone who could still meet these waiters. */
  predicate HasCounterpart(e: Endpoint) {
    e.queue != [] ==> (if e.areSenders then e.receivers > 0 else e.senders > 0)
  }

  ghost predicate AllPaired(eps: seq<Endpoint>) {
    forall id :: 0 <= id < |eps| ==> HasCounterpart(eps[id])
  }

  ghost predicate HoldsRight(t: Table, id: nat, right: Right) {
    exists s :: 0 <= s < MAX_CAPS && Names(t.caps[s], id, right)
  }

  /** A waiter still holds the capability it waits with. */
  ghost predicate WaitersHold(tables: seq<Table>, eps: seq<Endpoint>) {
    forall id, i :: 0 <= id < |eps| && 0 <= i < |eps[id].queue| ==>
      eps[id].queue[i] < |tables| && HoldsRight(tables[eps[id].queue[i]], id, Side(eps[id].areSenders))
  }

  predicate RepliesTo(c: Option<Capability>, caller: nat) {
    c.Some? && c.value.target == ReplyTo(caller)
  }

  /** A reply capability names a caller awaiting its reply, and no other names it. */
  ghost predicate RepliesUnique(tables: seq<Table>) {
    forall p, s, q, k, c: nat ::
      (0 <= p < |tables| && 0 <= s < MAX_CAPS && 0 <= q < |tables| && 0 <= k < MAX_CAPS
       && RepliesTo(tables[p].caps[s], c) && RepliesTo(tables[q].caps[k], c)) ==> p == q && s == k
  }

  ghost predicate RepliesOwed(tables: seq<Table>, history: seq<seq<Event>>) {
    forall p, s, c: nat :: (0 <= p < |tables| && 0 <= s < MAX_CAPS && RepliesTo(tables[p].caps[s], c)) ==>
      AwaitsReply(history, c)
  }

  predicate AwaitsReply(history: seq<seq<Event>>, c: nat) {
    c < |history| && PhaseOf(history[c]) == Owed
  }

  /** The run state and the queues agree with what the history says. */
  ghost predicate Lawful(st: State, p: Pid) {
    match PhaseOf(st.history[p])
    case Dead => st.procs[p].run.Empty? && !Queued(st.eps, p)
    case Live => st.procs[p].run.Ready? && !Queued(st.eps, p)
    case InQueue =>
      st.procs[p].run.Blocked? && exists id: Eid ::
        p in st.eps[id].queue && (st.eps[id].areSenders ==> !st.procs[p].isCall)
    case Calling =>
      st.procs[p].run.Blocked? && exists id: Eid ::
        p in st.eps[id].queue && st.eps[id].areSenders && st.procs[p].isCall
    case Owed => st.procs[p].run.Blocked? && !Queued(st.eps, p)
    case Broken => false
  }

  ghost predicate AllLawful(st: State) {
    forall p: Pid :: Lawful(st, p)
  }

  /** A slot held open for a returning capability is empty. */
  ghost predicate Tidy(t: Table) {
    forall s :: 0 <= s < MAX_CAPS && t.reserved[s] ==> t.caps[s].None?
  }

  ghost predicate TablesTidy(st: State) {
    && (forall p: Pid :: Tidy(st.tables[p]))
    && (forall p: Pid :: st.procs[p].run.Empty? ==> st.tables[p] == NoCaps())
  }

  ghost predicate Counts(st: State) {
    CountsAgree(st.tables, st.eps) && NoneDangle(st.tables, st.eps)
  }

  ghost predicate Waiters(st: State) {
    Sound(st) && Separate(Queues(st.eps)) && AllPaired(st.eps) && WaitersHold(st.tables, st.eps)
  }

  ghost predicate Replies(st: State) {
    RepliesUnique(st.tables) && RepliesOwed(st.tables, st.history)
  }

  ghost predicate Inv(st: State) {
    Counts(st) && Waiters(st) && Replies(st) && AllLawful(st) && TablesTidy(st)
  }

  lemma InvIsSound(st: State)
    requires Inv(st)
    ensures Sound(st)
  {
  }

  lemma InitialIsSafe()
    ensures Inv(Initial())
  {
    var st := Initial();
    forall id | 0 <= id < MAX_ENDPOINTS ensures Naming(st.tables, id, MaySend) == {} && Naming(st.tables, id, MayRecv) == {} {
    }
  }

  // ----- counting -----

  ghost predicate OneSlotApart(before: seq<Table>, after: seq<Table>, p: nat, s: nat) {
    && |before| == |after| && p < |before| && s < MAX_CAPS
    && forall q, k :: 0 <= q < |before| && 0 <= k < MAX_CAPS && (q != p || k != s) ==>
         after[q].caps[k] == before[q].caps[k]
  }

  lemma SizesOneApart<T>(x: set<T>, y: set<T>, a: T)
    requires forall b :: b != a ==> (b in x <==> b in y)
    ensures |y| + One(a in x) == |x| + One(a in y)
  {
    assert y - {a} == x - {a};
    assert a in x ==> x == (x - {a}) + {a};
    assert a in y ==> y == (y - {a}) + {a};
  }

  lemma SizesMoved<T>(x: set<T>, y: set<T>, a: T, b: T)
    requires forall c :: c != a && c != b ==> (c in x <==> c in y)
    requires (a in x <==> b in y) && (a != b ==> b !in x && a !in y)
    ensures |x| == |y|
  {
    if a in x {
      assert y - {b} == x - {a};
      assert x == (x - {a}) + {a} && y == (y - {b}) + {b};
    } else {
      assert x == y;
    }
  }

  lemma CountOneSlot(before: seq<Table>, after: seq<Table>, p: nat, s: nat, id: nat, right: Right)
    requires OneSlotApart(before, after, p, s)
    ensures |Naming(after, id, right)| + One(Names(before[p].caps[s], id, right))
         == |Naming(before, id, right)| + One(Names(after[p].caps[s], id, right))
  {
    hide Naming;
    InNaming(before, id, right);
    InNaming(after, id, right);
    forall a: (nat, nat) | a != (p, s) ensures NamesThere(after, a, id, right) <==> NamesThere(before, a, id, right) {
    }
    SizesOneApart(Naming(before, id, right), Naming(after, id, right), (p, s));
  }

  /** Taking a counted capability out and putting an equal one back leaves the
      counters as they were: a transfer nets to zero. */
  lemma TransitNetsToZero(tables: seq<Table>, eps: seq<Endpoint>, p: nat, s: nat)
    requires CountsAgree(tables, eps) && p < |tables| && s < MAX_CAPS && tables[p].caps[s].Some?
    ensures Noted(Unnoted(eps, tables[p].caps[s].value), tables[p].caps[s].value) == eps
  {
    hide Naming;
    var cap := tables[p].caps[s].value;
    if cap.target.EndpointCap? && cap.target.id < |eps| {
      var id := cap.target.id;
      InNaming(tables, id, MaySend);
      InNaming(tables, id, MayRecv);
      if MaySend in cap.rights { assert (p, s) in Naming(tables, id, MaySend); }
      if MayRecv in cap.rights { assert (p, s) in Naming(tables, id, MayRecv); }
    }
  }

  /** What safety cares about in a slot: an endpoint or reply capability, whatever
      its origin. */
  function Duty(c: Option<Capability>): Option<Capability> {
    if c.Some? && (c.value.target.EndpointCap? || c.value.target.ReplyTo?) then Some(c.value.(origin := None)) else None
  }

  /** `after` has the duty of (p, s) at (q, k) instead, and every other duty where it
      was. */
  ghost predicate Moved(before: seq<Table>, after: seq<Table>, p: nat, s: nat, q: nat, k: nat) {
    && |before| == |after| && p < |before| && s < MAX_CAPS && q < |before| && k < MAX_CAPS
    && Duty(before[p].caps[s]) == Duty(after[q].caps[k])
    && ((p, s) != (q, k) ==> Duty(before[q].caps[k]).None? && Duty(after[p].caps[s]).None?)
    && forall x, y :: 0 <= x < |before| && 0 <= y < MAX_CAPS && (x, y) != (p, s) && (x, y) != (q, k) ==>
         Duty(before[x].caps[y]) == Duty(after[x].caps[y])
  }

  lemma DutyDecides(a: Option<Capability>, b: Option<Capability>, id: nat, right: Right, eps: seq<Endpoint>, c: nat)
    requires Duty(a) == Duty(b)
    ensures Names(a, id, right) == Names(b, id, right)
    ensures NamesLive(a, eps) == NamesLive(b, eps)
    ensures RepliesTo(a, c) == RepliesTo(b, c)
  {
    assert Duty(a).Some? ==> Duty(a).value.target == a.value.target && Duty(a).value.rights == a.value.rights;
    assert Duty(b).Some? ==> Duty(b).value.target == b.value.target && Duty(b).value.rights == b.value.rights;
  }

  lemma NoDuty(c: Option<Capability>, id: nat, right: Right)
    requires Duty(c).None?
    ensures !Names(c, id, right)
  {
  }

  lemma CountMoved(before: seq<Table>, after: seq<Table>, p: nat, s: nat, q: nat, k: nat, id: nat, right: Right)
    requires Moved(before, after, p, s, q, k)
    ensures |Naming(after, id, right)| == |Naming(before, id, right)|
  {
    hide Naming, Duty;
    InNaming(before, id, right);
    InNaming(after, id, right);
    forall a: (nat, nat) | a != (p, s) && a != (q, k) ensures NamesThere(after, a, id, right) <==> NamesThere(before, a, id, right) {
      if a.0 < |before| && a.1 < MAX_CAPS { DutyDecides(before[a.0].caps[a.1], after[a.0].caps[a.1], id, right, [], 0); }
    }
    DutyDecides(before[p].caps[s], after[q].caps[k], id, right, [], 0);
    if (p, s) != (q, k) {
      NoDuty(before[q].caps[k], id, right);
      NoDuty(after[p].caps[s], id, right);
    }
    SizesMoved(Naming(before, id, right), Naming(after, id, right), (p, s), (q, k));
  }

  /** Where a duty came from. */
  function From(a: (nat, nat), p: nat, s: nat, q: nat, k: nat): (nat, nat) {
    if a == (q, k) then (p, s) else a
  }

  lemma NoDutyNoReply(c: Option<Capability>, eps: seq<Endpoint>, caller: nat)
    requires Duty(c).None?
    ensures !RepliesTo(c, caller) && NamesLive(c, eps)
  {
  }

  lemma ReplyIsOwed(tables: seq<Table>, history: seq<seq<Event>>, p: nat, s: nat, c: nat)
    requires RepliesOwed(tables, history) && p < |tables| && s < MAX_CAPS && RepliesTo(tables[p].caps[s], c)
    ensures AwaitsReply(history, c)
  {
  }

  lemma OneReply(tables: seq<Table>, p: nat, s: nat, q: nat, k: nat, c: nat)
    requires RepliesUnique(tables) && p < |tables| && s < MAX_CAPS && q < |tables| && k < MAX_CAPS
    requires RepliesTo(tables[p].caps[s], c) && RepliesTo(tables[q].caps[k], c)
    ensures p == q && s == k
  {
  }

  /** A reply capability found afterwards was one before, at the place it came from. */
  lemma ReplySource(before: seq<Table>, after: seq<Table>, p: nat, s: nat, q: nat, k: nat, x: nat, y: nat, c: nat)
    requires Moved(before, after, p, s, q, k) && x < |after| && y < MAX_CAPS && RepliesTo(after[x].caps[y], c)
    ensures (x, y) == (p, s) ==> (q, k) == (p, s)
    ensures var a := From((x, y), p, s, q, k); a.0 < |before| && a.1 < MAX_CAPS && RepliesTo(before[a.0].caps[a.1], c)
  {
    hide Duty, RepliesTo;
    var a := From((x, y), p, s, q, k);
    if Duty(after[x].caps[y]).None? {
      NoDutyNoReply(after[x].caps[y], [], c);
    } else {
      assert Duty(before[a.0].caps[a.1]) == Duty(after[x].caps[y]);
      DutyDecides(before[a.0].caps[a.1], after[x].caps[y], 0, MaySend, [], c);
    }
  }

  /** Moving one duty keeps the counters, the live names and the replies right. */
  lemma MovedKeeps(before: seq<Table>, after: seq<Table>, eps: seq<Endpoint>, history: seq<seq<Event>>,
                   p: nat, s: nat, q: nat, k: nat)
    requires Moved(before, after, p, s, q, k) && CountsAgree(before, eps) && NoneDangle(before, eps)
    requires RepliesUnique(before) && RepliesOwed(before, history)
    ensures CountsAgree(after, eps) && NoneDangle(after, eps)
    ensures RepliesUnique(after) && RepliesOwed(after, history)
  {
    hide Naming, Duty, Names, NamesLive, RepliesTo, AwaitsReply;
    forall id | 0 <= id < |eps|
      ensures |Naming(after, id, MaySend)| == |Naming(before, id, MaySend)|
      ensures |Naming(after, id, MayRecv)| == |Naming(before, id, MayRecv)|
    {
      CountMoved(before, after, p, s, q, k, id, MaySend);
      CountMoved(before, after, p, s, q, k, id, MayRecv);
    }
    forall x: nat, y: nat | x < |after| && y < MAX_CAPS ensures NamesLive(after[x].caps[y], eps) {
      var a := From((x, y), p, s, q, k);
      if Duty(after[x].caps[y]).None? {
        NoDutyNoReply(after[x].caps[y], eps, 0);
      } else {
        DutyDecides(before[a.0].caps[a.1], after[x].caps[y], 0, MaySend, eps, 0);
      }
    }
    forall x: nat, y: nat, c: nat | x < |after| && y < MAX_CAPS && RepliesTo(after[x].caps[y], c)
      ensures AwaitsReply(history, c)
    {
      var a := From((x, y), p, s, q, k);
      ReplySource(before, after, p, s, q, k, x, y, c);
      ReplyIsOwed(before, history, a.0, a.1, c);
    }
    forall x: nat, y: nat, u: nat, v: nat, c: nat |
        x < |after| && y < MAX_CAPS && u < |after| && v < MAX_CAPS
        && RepliesTo(after[x].caps[y], c) && RepliesTo(after[u].caps[v], c)
      ensures x == u && y == v
    {
      var a, b := From((x, y), p, s, q, k), From((u, v), p, s, q, k);
      ReplySource(before, after, p, s, q, k, x, y, c);
      ReplySource(before, after, p, s, q, k, u, v, c);
      OneReply(before, a.0, a.1, b.0, b.1, c);
    }
  }

  // ----- the pieces of a step -----

  /** Two tables with the same duties satisfy the same invariants. */
  ghost predicate SameDuties(a: Table, b: Table) {
    forall s :: 0 <= s < MAX_CAPS ==> Duty(a.caps[s]) == Duty(b.caps[s])
  }

  /** A table that kept its duties and perhaps gained some. */
  ghost predicate KeepsDuties(a: Table, b: Table) {
    forall s :: 0 <= s < MAX_CAPS && Duty(a.caps[s]).Some? ==> Duty(b.caps[s]) == Duty(a.caps[s])
  }

  lemma InstallDuties(t: Table, cap: Capability)
    ensures var (t', landing) := Install(t, cap);
            && KeepsDuties(t, t')
            && (landing.Some? ==> landing.value < MAX_CAPS && t.caps[landing.value].None? && t' == Put(t, landing.value, cap))
            && (landing.None? ==> t' == t)
  {
  }

  lemma LentKeepsDuty(cap: Capability, source: Origin, dest: nat)
    ensures Duty(Some(LentTo(cap, source, dest))) == Duty(Some(cap))
  {
  }

  lemma MovedAcross(before: seq<Table>, p: nat, s: nat, q: nat, k: nat, without: Table, there: Table)
    requires p < |before| && q < |before| && p != q && s < MAX_CAPS && k < MAX_CAPS && before[q].caps[k].None?
    requires without.caps == before[p].caps[s := None]
    requires there.caps == before[q].caps[k := there.caps[k]] && Duty(there.caps[k]) == Duty(before[p].caps[s])
    ensures Moved(before, before[p := without][q := there], p, s, q, k)
  {
  }

  lemma MovedBack(before: seq<Table>, p: nat, s: nat, k: nat, back: Table)
    requires p < |before| && s < MAX_CAPS && k < MAX_CAPS && (k == s || before[p].caps[k].None?)
    requires back.caps == before[p].caps[s := None][k := before[p].caps[s]]
    ensures Moved(before, before[p := back], p, s, p, k)
  {
  }

  lemma MovedNowhere(before: seq<Table>, p: nat, s: nat, back: Table)
    requires p < |before| && s < MAX_CAPS && Duty(before[p].caps[s]).None? && back.caps == before[p].caps[s := None]
    ensures Moved(before, before[p := back], p, s, p, s)
  {
  }

  /** A transfer moves one duty out of `src` and changes nothing else that safety
      looks at: not the endpoints, not the processes, not the histories. A table
      without room means the duty is back with `src`. */
  lemma TransferMoves(st: State, src: Pid, slot: nat, dst: Pid) returns (q: nat, k: nat)
    requires src != dst && CountsAgree(st.tables, st.eps) && slot < MAX_CAPS && st.tables[src].caps[slot].Some?
    requires Tidy(st.tables[src]) && Tidy(st.tables[dst])
    ensures var st' := Transfer(st, src, slot, dst).0;
            && Moved(st.tables, st'.tables, src, slot, q, k) && (q == src || q == dst)
            && st'.eps == st.eps && st'.procs == st.procs && st'.history == st.history
            && KeepsDuties(st.tables[dst], st'.tables[dst])
            && Tidy(st'.tables[src]) && Tidy(st'.tables[dst])
            && forall p: Pid :: p != src && p != dst ==> st'.tables[p] == st.tables[p]
  {
    hide CountsAgree, Moved, Noted, Unnoted, LentTo, Duty;
    TransitNetsToZero(st.tables, st.eps, src, slot);
    var cap := st.tables[src].caps[slot].value;
    var lent := LentTo(cap, Origin(src, slot), dst);
    LentKeepsDuty(cap, Origin(src, slot), dst);
    var without := LentFrom(st.tables[src], slot);
    var (there, landing) := InstallHome(st.tables[dst], lent, cap.origin, dst);
    LandingKeepsDuties(st.tables[dst], lent, cap.origin, dst);
    var (back, regained) := Install(without, cap);
    if landing.Some? {
      q, k := dst, landing.value;
      MovedAcross(st.tables, src, slot, dst, k, without, there);
    } else if regained.Some? {
      q, k := src, regained.value;
      MovedBack(st.tables, src, slot, k, back);
    } else {
      q, k := src, slot;
      StrandedIsNoDuty(st.tables[src], slot);
      MovedNowhere(st.tables, src, slot, back);
    }
  }

  /** The slot just vacated is refused by `install` only if the loan reserved it, and
      then what it held was neither endpoint nor reply. */
  lemma StrandedIsNoDuty(t: Table, slot: nat)
    requires slot < MAX_CAPS && t.caps[slot].Some? && !t.reserved[slot]
    requires Install(LentFrom(t, slot), t.caps[slot].value).1.None?
    ensures Duty(t.caps[slot]).None?
  {
    assert !Available(LentFrom(t, slot), slot);
  }

  lemma LandingKeepsDuties(t: Table, cap: Capability, prior: Option<Origin>, dest: nat)
    ensures KeepsDuties(t, InstallHome(t, cap, prior, dest).0)
  {
  }

  /** Safe except that `x` has just left a queue and has not been woken. */
  ghost predicate InTransit(st: State, x: Pid) {
    && Counts(st) && Waiters(st) && Replies(st) && TablesTidy(st)
    && (forall p: Pid :: p != x ==> Lawful(st, p))
    && st.procs[x].run.Blocked? && !Queued(st.eps, x)
  }

  /** Same run state, same kind of wait, same place in the queues. */
  ghost predicate SameStanding(st: State, st': State, p: Pid) {
    && st.procs[p].run == st'.procs[p].run && st.procs[p].isCall == st'.procs[p].isCall
    && st.history[p] == st'.history[p]
    && forall id: Eid ::
         && (p in st.eps[id].queue <==> p in st'.eps[id].queue)
         && (p in st.eps[id].queue ==> st.eps[id].areSenders == st'.eps[id].areSenders)
  }

  lemma StandingKeepsLawful(st: State, st': State, p: Pid)
    requires SameStanding(st, st', p) && Lawful(st, p)
    ensures Lawful(st', p)
  {
  }

  lemma CountsFrame(tables: seq<Table>, eps: seq<Endpoint>, eps': seq<Endpoint>)
    requires CountsAgree(tables, eps) && NoneDangle(tables, eps) && |eps'| == |eps|
    requires forall id :: 0 <= id < |eps| ==>
      && eps'[id].senders == eps[id].senders && eps'[id].receivers == eps[id].receivers
      && eps'[id].inUse == eps[id].inUse && (!eps[id].inUse ==> eps'[id] == eps[id])
    ensures CountsAgree(tables, eps') && NoneDangle(tables, eps')
  {
    hide Naming;
    forall p, s | 0 <= p < |tables| && 0 <= s < MAX_CAPS ensures NamesLive(tables[p].caps[s], eps') {
      assert NamesLive(tables[p].caps[s], eps);
    }
  }

  /** Taking the head of a queue puts that process in transit; which event it still
      owes follows from the side it waited on. */
  lemma PopKeeps(st: State, id: Eid, wantSenders: bool)
    requires Inv(st) && Peer(st, id, wantSenders).Some?
    ensures st.eps[id].inUse
    ensures var x := st.eps[id].queue[0];
            && x < MAX_PROCESSES && InTransit(Popped(st, id), x)
            && PhaseOf(st.history[x]) == (if wantSenders && st.procs[x].isCall then Calling else InQueue)
            && HoldsRight(st.tables[x], id, Side(wantSenders))
  {
    hide Naming, NoneDangle, Replies, PhaseOf, HasCounterpart, WaitersHold, Separate, HoldsRight;
    var x := st.eps[id].queue[0];
    var st' := Popped(st, id);
    PopWaiters(st, id);
    SpareIsBlank(st.tables, st.eps, id);
    CountsFrame(st.tables, st.eps, st'.eps);
    assert Replies(st') by { SameReplies(st, st'); }
    forall p: Pid | p != x ensures Lawful(st', p) {
      assert p in st.eps[id].queue ==> p in st.eps[id].queue[1..];
      StandingKeepsLawful(st, st', p);
    }
    assert Lawful(st, x);
  }

  lemma SameReplies(st: State, st': State)
    requires Replies(st) && st'.tables == st.tables && st'.history == st.history
    ensures Replies(st')
  {
  }

  lemma SpareIsBlank(tables: seq<Table>, eps: seq<Endpoint>, id: nat)
    requires CountsAgree(tables, eps) && id < |eps|
    ensures !eps[id].inUse ==> eps[id] == NoEndpoint()
  {
    hide Naming;
  }

  lemma PopWaiters(st: State, id: Eid)
    requires Waiters(st) && st.eps[id].queue != []
    ensures var x := st.eps[id].queue[0];
            && x < MAX_PROCESSES && Waiters(Popped(st, id)) && !Queued(Popped(st, id).eps, x)
            && (forall a: Eid :: x in st.eps[a].queue ==> a == id) && x in st.eps[id].queue
            && HoldsRight(st.tables[x], id, Side(st.eps[id].areSenders))
  {
    hide HoldsRight;
    var st' := Popped(st, id);
    SeparateTail(Queues(st.eps), id);
    assert Queues(st'.eps) == Queues(st.eps)[id := st.eps[id].queue[1..]];
    assert forall a: Eid :: Queues(st.eps)[a] == st.eps[a].queue && Queues(st'.eps)[a] == st'.eps[a].queue;
  }

  lemma TransferKeeps(st: State, x: Pid, src: Pid, slot: nat, dst: Pid)
    requires InTransit(st, x) && src != dst
    requires !Queued(st.eps, src) && !Queued(st.eps, dst) && !st.procs[src].run.Empty? && !st.procs[dst].run.Empty?
    ensures var st' := Transfer(st, src, slot, dst).0;
            InTransit(st', x) && st'.eps == st.eps && st'.procs == st.procs && st'.history == st.history
  {
    hide Moved, CountsAgree, NoneDangle, RepliesUnique, RepliesOwed, Tidy, HoldsRight, Duty, LentTo, LentFrom, InstallHome, Install;
    if Held(st.tables[src], slot).Some? {
      var st' := Transfer(st, src, slot, dst).0;
      hide Transfer;
      var q, k := TransferMoves(st, src, slot, dst);
      MovedKeeps(st.tables, st'.tables, st.eps, st.history, src, slot, q, k);
      forall p: Pid | p != x ensures Lawful(st', p) {
        StandingKeepsLawful(st, st', p);
      }
    }
  }

  lemma OwedElsewhere(tables: seq<Table>, history: seq<seq<Event>>, x: nat, h: seq<Event>)
    requires RepliesOwed(tables, history) && x < |history| && PhaseOf(history[x]) != Owed
    ensures RepliesOwed(tables, history[x := h])
  {
    hide RepliesTo, PhaseOf;
    forall p: nat, s: nat, c: nat | p < |tables| && s < MAX_CAPS && RepliesTo(tables[p].caps[s], c)
      ensures AwaitsReply(history[x := h], c)
    {
      assert AwaitsReply(history, c);
    }
  }

  /** Waking the process in transit restores the invariant. */
  lemma WakeKeeps(st: State, x: Pid, answer: Answer, e: Event)
    requires InTransit(st, x)
    requires PhaseOf(st.history[x]) != Owed && Next(PhaseOf(st.history[x]), e) == Live
    ensures Inv(Wake(st, x, answer, e))
  {
    hide Naming, Names, HoldsRight, CountsAgree, NoneDangle, RepliesUnique, RepliesOwed, PhaseOf, Next;
    var st' := Wake(st, x, answer, e);
    PhaseStep(st.history[x], e);
    OwedElsewhere(st.tables, st.history, x, st.history[x] + [e]);
    forall p: Pid ensures Lawful(st', p) {
      if p != x { StandingKeepsLawful(st, st', p); }
    }
  }

  predicate IsEndpoint(c: Option<Capability>) {
    c.Some? && c.value.target.EndpointCap?
  }

  /** Changing one slot between things that name no endpoint. */
  lemma CountsAside(before: seq<Table>, after: seq<Table>, p: nat, s: nat, eps: seq<Endpoint>)
    requires OneSlotApart(before, after, p, s) && CountsAgree(before, eps) && NoneDangle(before, eps)
    requires !IsEndpoint(before[p].caps[s]) && !IsEndpoint(after[p].caps[s])
    ensures CountsAgree(after, eps) && NoneDangle(after, eps)
  {
    hide Naming;
    forall id | 0 <= id < |eps|
      ensures |Naming(after, id, MaySend)| == |Naming(before, id, MaySend)|
      ensures |Naming(after, id, MayRecv)| == |Naming(before, id, MayRecv)|
    {
      CountOneSlot(before, after, p, s, id, MaySend);
      CountOneSlot(before, after, p, s, id, MayRecv);
    }
    forall x, y | 0 <= x < |after| && 0 <= y < MAX_CAPS ensures NamesLive(after[x].caps[y], eps) {
      assert NamesLive(before[x].caps[y], eps);
    }
  }

  lemma HoldsStill(a: Table, b: Table, id: nat, right: Right)
    requires KeepsDuties(a, b) && HoldsRight(a, id, right)
    ensures HoldsRight(b, id, right)
  {
    var s :| 0 <= s < MAX_CAPS && Names(a.caps[s], id, right);
    assert Duty(a.caps[s]).Some?;
    DutyDecides(a.caps[s], b.caps[s], id, right, [], 0);
  }

  /** A reply capability for a process whose request has just been taken. */
  lemma ReplyAdded(tables: seq<Table>, history: seq<seq<Event>>, server: nat, k: nat, x: nat, t: Table)
    requires RepliesUnique(tables) && RepliesOwed(tables, history)
    requires server < |tables| && k < MAX_CAPS && x < |history| && PhaseOf(history[x]) == Calling
    requires t.caps == tables[server].caps[k := Some(Capability(ReplyTo(x), {}, None))]
    ensures RepliesUnique(tables[server := t]) && RepliesOwed(tables[server := t], history[x := history[x] + [RequestTaken]])
  {
    hide PhaseOf;
    PhaseStep(history[x], RequestTaken);
    var history' := history[x := history[x] + [RequestTaken]];
    assert AwaitsReply(history', x);
    forall p: nat, s: nat, c: nat | p < |tables| && s < MAX_CAPS && RepliesTo(tables[p].caps[s], c)
      ensures AwaitsReply(history', c) && c != x
    {
      assert AwaitsReply(history, c);
    }
  }

  lemma HandOverKeeps(st: State, x: Pid, server: Pid)
    requires InTransit(st, x) && PhaseOf(st.history[x]) == Calling && !st.procs[server].run.Empty?
    ensures var table := Install(st.tables[server], Capability(ReplyTo(x), {}, None)).0;
            Inv(Happened(WithTable(st, server, table), x, RequestTaken))
  {
    hide Naming, Names, HoldsRight, CountsAgree, NoneDangle, RepliesUnique, RepliesOwed, PhaseOf, RepliesTo, Duty;
    var cap := Capability(ReplyTo(x), {}, None);
    var (table, landing) := Install(st.tables[server], cap);
    InstallDuties(st.tables[server], cap);
    var st' := Happened(WithTable(st, server, table), x, RequestTaken);
    PhaseStep(st.history[x], RequestTaken);
    if landing.Some? {
      CountsAside(st.tables, st'.tables, server, landing.value, st.eps);
      ReplyAdded(st.tables, st.history, server, landing.value, x, table);
    } else {
      assert st'.tables == st.tables;
      OwedElsewhere(st.tables, st.history, x, st'.history[x]);
    }
    forall id: Eid, i | 0 <= i < |st.eps[id].queue|
      ensures HoldsRight(st'.tables[st.eps[id].queue[i]], id, Side(st.eps[id].areSenders))
    {
      var q := st.eps[id].queue[i];
      assert HoldsRight(st.tables[q], id, Side(st.eps[id].areSenders));
      if q == server { HoldsStill(st.tables[q], table, id, Side(st.eps[id].areSenders)); }
    }
    forall p: Pid ensures Lawful(st', p) {
      if p != x { StandingKeepsLawful(st, st', p); }
    }
  }

  lemma ParkTransit(st: State, x: Pid)
    requires Inv(st) && st.procs[x].run.Ready?
    ensures InTransit(Park(st, x, ParkedCalling), x) && PhaseOf(Park(st, x, ParkedCalling).history[x]) == Calling
  {
    hide Naming, Names, HoldsRight, CountsAgree, NoneDangle, RepliesUnique, RepliesOwed, PhaseOf;
    var st' := Park(st, x, ParkedCalling);
    assert Lawful(st, x);
    PhaseStep(st.history[x], ParkedCalling);
    OwedElsewhere(st.tables, st.history, x, st'.history[x]);
    forall p: Pid | p != x ensures Lawful(st', p) {
      StandingKeepsLawful(st, st', p);
    }
  }

  /** Joining a queue: allowed only when nobody waits on the other side and someone
      still could. */
  lemma ParkInQueueKeeps(st: State, x: Pid, id: Eid, areSenders: bool, pr: Proc, e: Event)
    requires Inv(st) && st.procs[x].run.Ready? && st.eps[id].inUse && Peer(st, id, !areSenders).None?
    requires HoldsRight(st.tables[x], id, Side(areSenders))
    requires if areSenders then st.eps[id].receivers > 0 else st.eps[id].senders > 0
    requires pr.run.Ready? && (areSenders ==> pr.isCall == e.ParkedCalling?)
    requires e.ParkedInQueue? || (e.ParkedCalling? && areSenders)
    ensures Inv(Park(Enqueued(st.(procs := st.procs[x := pr]), id, x, areSenders), x, e))
  {
    hide Naming, Names, HoldsRight, CountsAgree, NoneDangle, RepliesUnique, RepliesOwed, PhaseOf;
    var st' := Park(Enqueued(st.(procs := st.procs[x := pr]), id, x, areSenders), x, e);
    assert Lawful(st, x);
    PhaseStep(st.history[x], e);
    OwedElsewhere(st.tables, st.history, x, st'.history[x]);
    CountsFrame(st.tables, st.eps, st'.eps);
    assert !Waits(Queues(st.eps), x);
    SeparateAppend(Queues(st.eps), id, x);
    assert Queues(st'.eps) == Queues(st.eps)[id := st.eps[id].queue + [x]];
    forall p: Pid ensures Lawful(st', p) {
      if p == x {
        assert x in st'.eps[id].queue;
      } else {
        StandingKeepsLawful(st, st', p);
      }
    }
  }
}
