/** The loops of a death, one iteration at a time: partial results whose last one is
    what `IpcModel` says a death leaves behind. */
module IpcReaping {
  import opened Prelude
  import opened Capabilities
  import opened WaitQueues
  import opened IpcModel
  import opened IpcSafety
  import opened IpcSteps
  import opened IpcDeath

  // ----- waking -----

  /** `st` once the callers in `replied` and the waiters in `bereft` have been woken
      and the queues are down to `queues`. */
  ghost function After(st: State, replied: set<nat>, bereft: set<nat>, queues: seq<seq<nat>>): State
    requires |queues| == MAX_ENDPOINTS
  {
    Machine(
      st.tables,
      seq(MAX_PROCESSES, c requires 0 <= c < MAX_PROCESSES =>
        if c in replied then st.procs[c].(run := Ready, landing := None, frame := Answer(PeerDied, Some(0), None))
        else if c in bereft
        then st.procs[c].(run := Ready, landing := None, frame := Answer(PeerDied, Some(0), st.procs[c].landing))
        else st.procs[c]),
      seq(MAX_ENDPOINTS, id requires 0 <= id < MAX_ENDPOINTS => st.eps[id].(queue := queues[id])),
      seq(MAX_PROCESSES, c requires 0 <= c < MAX_PROCESSES =>
        if c in replied || c in bereft then st.history[c] + [Bereaved] else st.history[c]))
  }

  lemma AfterNothing(st: State)
    ensures After(st, {}, {}, Queues(st.eps)) == st
  {
    assert After(st, {}, {}, Queues(st.eps)).procs == st.procs;
    assert After(st, {}, {}, Queues(st.eps)).eps == st.eps;
    assert After(st, {}, {}, Queues(st.eps)).history == st.history;
  }

  lemma AfterReply(st: State, replied: set<nat>, bereft: set<nat>, queues: seq<seq<nat>>, c: Pid)
    requires |queues| == MAX_ENDPOINTS && c !in replied && c !in bereft
    ensures After(st, replied + {c}, bereft, queues)
         == Wake(TakeLanding(After(st, replied, bereft, queues), c), c, Answer(PeerDied, Some(0), None), Bereaved)
  {
    var a, b := After(st, replied + {c}, bereft, queues), After(st, replied, bereft, queues);
    var w := Wake(TakeLanding(b, c), c, Answer(PeerDied, Some(0), None), Bereaved);
    assert a.procs == w.procs;
    assert a.history == w.history;
  }

  lemma AfterWaiter(st: State, bereft: set<nat>, queues: seq<seq<nat>>, c: Pid)
    requires |queues| == MAX_ENDPOINTS && c !in bereft
    ensures After(st, {}, bereft, queues).procs[c] == st.procs[c]
    ensures After(st, {}, bereft + {c}, queues)
         == Wake(TakeLanding(After(st, {}, bereft, queues), c), c, Answer(PeerDied, Some(0), st.procs[c].landing), Bereaved)
  {
    var a, b := After(st, {}, bereft + {c}, queues), After(st, {}, bereft, queues);
    var w := Wake(TakeLanding(b, c), c, Answer(PeerDied, Some(0), st.procs[c].landing), Bereaved);
    assert a.procs == w.procs;
    assert a.history == w.history;
  }

  lemma AfterPop(st: State, bereft: set<nat>, queues: seq<seq<nat>>, id: Eid)
    requires |queues| == MAX_ENDPOINTS && queues[id] != []
    ensures After(st, {}, bereft, queues[id := queues[id][1..]]) == Popped(After(st, {}, bereft, queues), id)
  {
    assert After(st, {}, bereft, queues[id := queues[id][1..]]).eps == Popped(After(st, {}, bereft, queues), id).eps;
  }

  lemma AfterAfter(st: State, replied: set<nat>, bereft: set<nat>, queues: seq<seq<nat>>, more: set<nat>, final: seq<seq<nat>>)
    requires |queues| == |final| == MAX_ENDPOINTS && more !! replied && more !! bereft
    ensures After(After(st, replied, bereft, queues), {}, more, final) == After(st, replied, bereft + more, final)
  {
    var a, b := After(After(st, replied, bereft, queues), {}, more, final), After(st, replied, bereft + more, final);
    assert a.procs == b.procs;
    assert a.eps == b.eps;
    assert a.history == b.history;
  }

  /** Callers owed a reply from the first `n` slots of `p`. */
  ghost predicate OwesBelow(st: State, p: Pid, c: nat, n: nat)
    requires n <= MAX_CAPS
  {
    c < MAX_PROCESSES && st.procs[c].run.Blocked? && exists s :: 0 <= s < n && ReplyIn(st.tables[p], s, c)
  }

  ghost function RepliedBelow(st: State, p: Pid, n: nat): set<nat>
    requires n <= MAX_CAPS
  {
    set c | 0 <= c < MAX_PROCESSES && OwesBelow(st, p, c, n)
  }

  ghost predicate StuckBelow(st: State, p: Pid, c: nat, n: nat)
    requires n <= MAX_ENDPOINTS
  {
    exists id: Eid :: id < n && StrandedBy(st, p, id) && c in st.eps[id].queue
  }

  ghost function BereftBelow(st: State, p: Pid, n: nat): set<nat>
    requires n <= MAX_ENDPOINTS
  {
    set c | 0 <= c < MAX_PROCESSES && StuckBelow(st, p, c, n)
  }

  ghost function QueuesBelow(st: State, p: Pid, n: nat): (r: seq<seq<nat>>)
    ensures |r| == MAX_ENDPOINTS
  {
    seq(MAX_ENDPOINTS, id requires 0 <= id < MAX_ENDPOINTS =>
      if id < n && StrandedBy(st, p, id) then [] else st.eps[id].queue)
  }

  lemma RepliedMore(st: State, p: Pid, n: nat)
    requires n < MAX_CAPS
    ensures var cap := st.tables[p].caps[n];
            var named := cap.Some? && cap.value.target.ReplyTo? && cap.value.target.caller < MAX_PROCESSES
                         && st.procs[cap.value.target.caller].run.Blocked?;
            && (named ==> RepliedBelow(st, p, n + 1) == RepliedBelow(st, p, n) + {cap.value.target.caller})
            && (!named ==> RepliedBelow(st, p, n + 1) == RepliedBelow(st, p, n))
  {
    var cap := st.tables[p].caps[n];
    forall c | 0 <= c < MAX_PROCESSES
      ensures OwesBelow(st, p, c, n + 1) <==> OwesBelow(st, p, c, n) || (st.procs[c].run.Blocked? && ReplyIn(st.tables[p], n, c))
    {
    }
  }

  lemma StrandedMore(st: State, p: Pid, id: Eid)
    requires Sound(st)
    ensures QueuesBelow(st, p, id)[id] == st.eps[id].queue
    ensures StrandedBy(st, p, id) ==>
      && BereftBelow(st, p, id + 1) == BereftBelow(st, p, id) + Members(st.eps[id].queue)
      && QueuesBelow(st, p, id + 1) == QueuesBelow(st, p, id)[id := []]
    ensures !StrandedBy(st, p, id) ==>
      BereftBelow(st, p, id + 1) == BereftBelow(st, p, id) && QueuesBelow(st, p, id + 1) == QueuesBelow(st, p, id)
  {
    hide StrandedBy;
    forall c | 0 <= c < MAX_PROCESSES
      ensures StuckBelow(st, p, c, id + 1) <==> StuckBelow(st, p, c, id) || (StrandedBy(st, p, id) && c in st.eps[id].queue)
    {
    }
  }

  /** A stranded queue's members have not been woken for any other reason. */
  lemma QueueIsUntouched(st: State, p: Pid, id: Eid)
    requires Inv(st) && st.procs[p].run.Ready?
    ensures var members := Members(st.eps[id].queue);
            members !! RepliedBelow(st, p, MAX_CAPS) && members !! BereftBelow(st, p, id)
  {
    hide Counts, AllPaired, WaitersHold, StrandedBy, TablesTidy;
    assert forall a: Eid :: Queues(st.eps)[a] == st.eps[a].queue;
    forall c | c in st.eps[id].queue ensures c !in RepliedBelow(st, p, MAX_CAPS) && c !in BereftBelow(st, p, id) {
      if c in RepliedBelow(st, p, MAX_CAPS) {
        var s :| 0 <= s < MAX_CAPS && ReplyIn(st.tables[p], s, c);
        ReplyFindsItsCaller(st, p, s, c);
      }
    }
  }

  lemma ReapedAtTheEnd(st: State, p: Pid)
    ensures After(st, RepliedBelow(st, p, MAX_CAPS), BereftBelow(st, p, MAX_ENDPOINTS), QueuesBelow(st, p, MAX_ENDPOINTS))
         == Reaped(st, p)
  {
    hide StrandedBy;
    var a := After(st, RepliedBelow(st, p, MAX_CAPS), BereftBelow(st, p, MAX_ENDPOINTS), QueuesBelow(st, p, MAX_ENDPOINTS));
    forall c: Pid
      ensures c in RepliedBelow(st, p, MAX_CAPS) <==> Owes(st, p, c) && st.procs[c].run.Blocked?
      ensures c in BereftBelow(st, p, MAX_ENDPOINTS) <==> Stuck(st, p, c)
    {
    }
    assert a.procs == Reaped(st, p).procs;
    assert a.eps == Reaped(st, p).eps;
    assert a.history == Reaped(st, p).history;
  }

  // ----- draining -----

  ghost function TallyBelow(t: Table, id: nat, right: Right, n: nat): set<nat>
    requires n <= MAX_CAPS
  {
    set s | 0 <= s < n && Names(t.caps[s], id, right)
  }

  lemma TallyMore(t: Table, id: nat, right: Right, n: nat)
    requires n < MAX_CAPS
    ensures |TallyBelow(t, id, right, n + 1)| == |TallyBelow(t, id, right, n)| + One(Names(t.caps[n], id, right))
    ensures |TallyBelow(t, id, right, n)| <= Tally(t, id, right)
  {
    hide Names;
    var a, b := TallyBelow(t, id, right, n), TallyBelow(t, id, right, n + 1);
    assert b == if Names(t.caps[n], id, right) then a + {n} else a;
    SubsetSize(a, TallySet(t, id, right));
  }

  lemma SubsetSize(a: set<nat>, b: set<nat>)
    requires a <= b
    ensures |a| <= |b|
  {
    assert b == a + (b - a);
  }

  ghost predicate NamesBelow(t: Table, id: nat, n: nat)
    requires n <= MAX_CAPS
  {
    exists s :: 0 <= s < n && NamesAt(t, s, id)
  }

  /** An endpoint once the first `n` slots of `t` have been dropped. */
  ghost function DrainedBelow(e: Endpoint, t: Table, id: nat, n: nat): Endpoint
    requires n <= MAX_CAPS
  {
    var left := e.(senders := Minus(e.senders, |TallyBelow(t, id, MaySend, n)|),
                   receivers := Minus(e.receivers, |TallyBelow(t, id, MayRecv, n)|));
    if NamesBelow(t, id, n) && Unreferenced(left) then NoEndpoint() else left
  }

  ghost function DroppedIfNamed(e: Endpoint, t: Table, id: nat, n: nat): Endpoint
    requires n < MAX_CAPS
  {
    if !NamesAt(t, n, id) then e
    else
      var u := Uncounted(e, t.caps[n].value.rights);
      if Unreferenced(u) then NoEndpoint() else u
  }

  lemma DrainOne(e: Endpoint, t: Table, id: nat, n: nat)
    requires n < MAX_CAPS && e.senders >= Tally(t, id, MaySend) && e.receivers >= Tally(t, id, MayRecv)
    requires NamesAt(t, n, id) ==> MaySend in t.caps[n].value.rights || MayRecv in t.caps[n].value.rights
    ensures DrainedBelow(e, t, id, n + 1) == DroppedIfNamed(DrainedBelow(e, t, id, n), t, id, n)
  {
    hide TallyBelow, Tally;
    TallyMore(t, id, MaySend, n);
    TallyMore(t, id, MayRecv, n);
    if n + 1 < MAX_CAPS {
      TallyMore(t, id, MaySend, n + 1);
      TallyMore(t, id, MayRecv, n + 1);
    } else {
      TallyAll(t, id);
    }
    assert NamesBelow(t, id, n + 1) <==> NamesBelow(t, id, n) || NamesAt(t, n, id);
  }

  lemma TallyAll(t: Table, id: nat)
    ensures |TallyBelow(t, id, MaySend, MAX_CAPS)| == Tally(t, id, MaySend)
    ensures |TallyBelow(t, id, MayRecv, MAX_CAPS)| == Tally(t, id, MayRecv)
  {
    assert TallyBelow(t, id, MaySend, MAX_CAPS) == TallySet(t, id, MaySend);
    assert TallyBelow(t, id, MayRecv, MAX_CAPS) == TallySet(t, id, MayRecv);
  }

  lemma DrainedAtTheEnd(e: Endpoint, t: Table, id: nat)
    ensures DrainedBelow(e, t, id, MAX_CAPS) == Drained(e, t, id)
  {
    hide TallyBelow, Tally;
    TallyAll(t, id);
    assert NamesBelow(t, id, MAX_CAPS) <==> NamesAny(t, id);
  }

  lemma DrainedAtTheStart(e: Endpoint, t: Table, id: nat)
    ensures DrainedBelow(e, t, id, 0) == e
  {
    assert TallyBelow(t, id, MaySend, 0) == {} && TallyBelow(t, id, MayRecv, 0) == {};
  }

  ghost function EpsBelow(eps: seq<Endpoint>, t: Table, n: nat): (r: seq<Endpoint>)
    requires n <= MAX_CAPS
    ensures |r| == |eps|
  {
    seq(|eps|, id requires 0 <= id < |eps| => DrainedBelow(eps[id], t, id, n))
  }

  /** One table's share never exceeds the count. */
  lemma ShareIsCovered(tables: seq<Table>, eps: seq<Endpoint>, p: nat, id: nat)
    requires CountsAgree(tables, eps) && p < |tables| && id < |eps|
    ensures eps[id].senders >= Tally(tables[p], id, MaySend) && eps[id].receivers >= Tally(tables[p], id, MayRecv)
  {
    hide Tally;
    CountDrained(tables, tables[p := NoCaps()], p, id, MaySend);
    CountDrained(tables, tables[p := NoCaps()], p, id, MayRecv);
  }

  /** Dropping the capability in slot `n` is one iteration of the drain. */
  lemma DrainStep(tables: seq<Table>, eps: seq<Endpoint>, p: nat, n: nat)
    requires CountsAgree(tables, eps) && NoneDangle(tables, eps) && p < |tables| && n < MAX_CAPS
    ensures EpsBelow(eps, tables[p], n + 1)
         == (if tables[p].caps[n].Some? then Dropped(EpsBelow(eps, tables[p], n), tables[p].caps[n].value)
             else EpsBelow(eps, tables[p], n))
  {
    hide CountsAgree, DrainedBelow, Tally;
    var t := tables[p];
    NameIsLive(tables, eps, p, n);
    var left := EpsBelow(eps, t, n + 1);
    var right := if t.caps[n].Some? then Dropped(EpsBelow(eps, t, n), t.caps[n].value) else EpsBelow(eps, t, n);
    forall id | 0 <= id < |eps| ensures left[id] == right[id] {
      ShareIsCovered(tables, eps, p, id);
      DrainOne(eps[id], t, id, n);
    }
  }

  lemma TalliesMore(t: Table, n: nat)
    requires n < MAX_CAPS
    ensures forall id: Eid :: |TallyBelow(t, id, MaySend, n + 1)| == |TallyBelow(t, id, MaySend, n)| + One(Names(t.caps[n], id, MaySend))
    ensures forall id: Eid :: |TallyBelow(t, id, MayRecv, n + 1)| == |TallyBelow(t, id, MayRecv, n)| + One(Names(t.caps[n], id, MayRecv))
  {
    hide TallyBelow, Tally, Names;
    forall id: Eid
      ensures |TallyBelow(t, id, MaySend, n + 1)| == |TallyBelow(t, id, MaySend, n)| + One(Names(t.caps[n], id, MaySend))
      ensures |TallyBelow(t, id, MayRecv, n + 1)| == |TallyBelow(t, id, MayRecv, n)| + One(Names(t.caps[n], id, MayRecv))
    {
      TallyMore(t, id, MaySend, n);
      TallyMore(t, id, MayRecv, n);
    }
  }

  lemma TalliesAll(t: Table)
    ensures forall id: Eid :: |TallyBelow(t, id, MaySend, MAX_CAPS)| == Tally(t, id, MaySend)
    ensures forall id: Eid :: |TallyBelow(t, id, MayRecv, MAX_CAPS)| == Tally(t, id, MayRecv)
  {
    hide TallyBelow, Tally;
    forall id: Eid
      ensures |TallyBelow(t, id, MaySend, MAX_CAPS)| == Tally(t, id, MaySend)
      ensures |TallyBelow(t, id, MayRecv, MAX_CAPS)| == Tally(t, id, MayRecv)
    {
      TallyAll(t, id);
    }
  }

  // ----- reading a partial result -----

  ghost function Members(q: seq<nat>): set<nat> {
    set c | c in q
  }

  lemma AfterQueue(st: State, bereft: set<nat>, queues: seq<seq<nat>>, id: Eid)
    requires |queues| == MAX_ENDPOINTS
    ensures After(st, {}, bereft, queues).eps[id].queue == queues[id]
  {
  }

  lemma AfterTables(st: State, replied: set<nat>, bereft: set<nat>, queues: seq<seq<nat>>)
    requires |queues| == MAX_ENDPOINTS
    ensures After(st, replied, bereft, queues).tables == st.tables
    ensures forall id: Eid :: var e := After(st, replied, bereft, queues).eps[id];
      e == st.eps[id].(queue := queues[id])
  {
  }

  lemma AfterProc(st: State, replied: set<nat>, bereft: set<nat>, queues: seq<seq<nat>>, c: Pid)
    requires |queues| == MAX_ENDPOINTS
    ensures After(st, replied, bereft, queues).procs[c].run.Blocked? <==> st.procs[c].run.Blocked? && c !in replied + bereft
  {
  }

  lemma NotYetWoken(st: State, id: Eid, k: nat)
    requires Sound(st) && Separate(Queues(st.eps)) && k < |st.eps[id].queue|
    ensures var q := st.eps[id].queue;
            && q[k] < MAX_PROCESSES && q[k] !in Members(q[..k]) && Members(q[..k + 1]) == Members(q[..k]) + {q[k]}
            && q[k..][0] == q[k] && q[k..][1..] == q[k + 1..]
            && forall qs: seq<seq<nat>> :: |qs| == MAX_ENDPOINTS ==> qs[id := q[k..]][id := q[k + 1..]] == qs[id := q[k + 1..]]
  {
    var q := st.eps[id].queue;
    assert Queues(st.eps)[id] == q;
  }

  lemma NothingBelow(st: State, p: Pid)
    ensures RepliedBelow(st, p, 0) == {} && BereftBelow(st, p, 0) == {} && QueuesBelow(st, p, 0) == Queues(st.eps)
    ensures forall id :: TallyBelow(st.tables[p], id, MaySend, 0) == {} && TallyBelow(st.tables[p], id, MayRecv, 0) == {}
  {
  }

  lemma AlreadyCounted(st: State, p: Pid, n: nat, c: Pid)
    requires n < MAX_CAPS && ReplyIn(st.tables[p], n, c) && (st.procs[c].run.Blocked? ==> c in RepliedBelow(st, p, n))
    ensures RepliedBelow(st, p, n + 1) == RepliedBelow(st, p, n)
  {
    RepliedMore(st, p, n);
  }

  lemma AfterIsQueued(st: State, p: Pid, replied: set<nat>, bereft: set<nat>, id: Eid)
    requires Inv(st)
    ensures var mid := After(st, replied, bereft, QueuesBelow(st, p, id));
            && Sound(mid) && Separate(Queues(mid.eps)) && Queues(mid.eps) == QueuesBelow(st, p, id)
  {
    hide Counts, AllPaired, WaitersHold, StrandedBy, TablesTidy, Replies, AllLawful;
    var mid := After(st, replied, bereft, QueuesBelow(st, p, id));
    assert forall a: Eid :: Queues(st.eps)[a] == st.eps[a].queue && Queues(mid.eps)[a] == QueuesBelow(st, p, id)[a];
  }

  ghost function Emptied(t: Table, n: nat): Table
    requires n <= MAX_CAPS
  {
    t.(caps := seq(MAX_CAPS, i requires 0 <= i < MAX_CAPS => if i < n then None else t.caps[i]))
  }

  lemma EmptiedMore(t: Table, n: nat)
    requires n < MAX_CAPS
    ensures Emptied(t, n + 1) == Without(Emptied(t, n), n) && Emptied(t, n).caps[n] == t.caps[n]
  {
  }

  lemma DrainStart(st: State, p: Pid)
    ensures Emptied(st.tables[p], 0) == st.tables[p] && EpsBelow(st.eps, st.tables[p], 0) == st.eps
    ensures st.tables[p := st.tables[p]] == st.tables
  {
    assert Emptied(st.tables[p], 0).caps == st.tables[p].caps;
    forall id: Eid ensures EpsBelow(st.eps, st.tables[p], 0)[id] == st.eps[id] {
      DrainedAtTheStart(st.eps[id], st.tables[p], id);
    }
  }

  lemma BuriedAtTheEnd(st: State, p: Pid)
    ensures Buried(st, p).eps == EpsBelow(st.eps, st.tables[p], MAX_CAPS)
    ensures Buried(st, p) == Happened(Machine(st.tables[p := NoCaps()], st.procs[p := NoProc()],
                                              EpsBelow(st.eps, st.tables[p], MAX_CAPS), st.history), p, Exited)
  {
    forall id: Eid ensures Buried(st, p).eps[id] == EpsBelow(st.eps, st.tables[p], MAX_CAPS)[id] {
      DrainedAtTheEnd(st.eps[id], st.tables[p], id);
    }
    assert Buried(st, p).eps == EpsBelow(st.eps, st.tables[p], MAX_CAPS);
  }

  /** Waking peers and clearing claims leaves the counters right for the drain. */
  lemma BeforeBurial(st: State, p: Pid)
    requires Inv(st) && st.procs[p].run.Ready?
    ensures var mid := ClaimsDropped(Reaped(st, p), p);
            IpcSafety.Counts(mid) && !Queued(mid.eps, p)
  {
    hide Naming, Duty, Waiters, Replies, TablesTidy, StrandedBy, ReapedProc;
    var mid := ClaimsDropped(Reaped(st, p), p);
    NotQueued(st, p);
    CountsFrame(st.tables, st.eps, mid.eps);
    forall q: Pid ensures SameDuties(st.tables[q], mid.tables[q]) {
      if q != p { ClearedSameDuties(st.tables[q], p); }
    }
    assert Moved(st.tables, mid.tables, 0, 0, 0, 0);
    SameCounts(st, mid);
  }

  lemma SameCounts(st: State, mid: State)
    requires CountsAgree(st.tables, mid.eps) && NoneDangle(st.tables, mid.eps) && Replies(st) && Moved(st.tables, mid.tables, 0, 0, 0, 0)
    ensures CountsAgree(mid.tables, mid.eps) && NoneDangle(mid.tables, mid.eps)
  {
    hide Moved, CountsAgree, NoneDangle, RepliesUnique, RepliesOwed;
    MovedKeeps(st.tables, mid.tables, mid.eps, st.history, 0, 0, 0, 0);
  }
}
