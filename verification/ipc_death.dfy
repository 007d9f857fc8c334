/** Capabilities leaving for good: `cap_release` and the death of a process. */
module IpcDeath {
  import opened Prelude
  import opened Capabilities
  import opened WaitQueues
  import opened IpcModel
  import opened IpcSafety
  import opened IpcSteps

  /** Tables that differ only in capabilities safety does not look at. */
  lemma SameDutiesInv(st: State, tables: seq<Table>)
    requires Inv(st) && |tables| == MAX_PROCESSES
    requires forall x: Pid :: SameDuties(st.tables[x], tables[x]) && Tidy(tables[x])
    requires forall x: Pid :: st.procs[x].run.Empty? ==> tables[x] == NoCaps()
    ensures Inv(st.(tables := tables))
  {
    hide Inv, Duty, Tidy;
    assert Moved(st.tables, tables, 0, 0, 0, 0);
    MovedInv(st, tables, 0, 0, 0, 0);
  }

  lemma SendHomeSameDuties(t: Table, home: nat, cap: Capability)
    requires Tidy(t) && Duty(Some(cap)).None?
    ensures SameDuties(t, SendHome(t, home, cap).0) && Tidy(SendHome(t, home, cap).0)
  {
  }

  // ----- cap_release -----

  /** The capability is the last counterpart of processes already waiting. */
  predicate LastCounterpart(st: State, cur: Pid, slot: nat) {
    match Held(st.tables[cur], slot)
    case None => false
    case Some(cap) =>
      && cap.target.EndpointCap? && cap.target.id < MAX_ENDPOINTS
      && var e := st.eps[cap.target.id];
         && e.queue != []
         && (if e.areSenders then MayRecv in cap.rights && e.receivers == 1 else MaySend in cap.rights && e.senders == 1)
  }

  lemma DropKeepsCounts(tables: seq<Table>, eps: seq<Endpoint>, p: nat, s: nat, after: seq<Table>)
    requires CountsAgree(tables, eps) && NoneDangle(tables, eps) && p < |tables| && s < MAX_CAPS
    requires tables[p].caps[s].Some? && tables[p].caps[s].value.target.EndpointCap?
    requires after == tables[p := Without(tables[p], s)]
    ensures CountsAgree(after, Dropped(eps, tables[p].caps[s].value))
    ensures NoneDangle(after, Dropped(eps, tables[p].caps[s].value))
  {
    hide Naming;
    var cap := tables[p].caps[s].value;
    var id := cap.target.id;
    var eps' := Dropped(eps, cap);
    assert NamesLive(tables[p].caps[s], eps);
    forall a | 0 <= a < |eps|
      ensures eps'[a].senders == |Naming(after, a, MaySend)| && eps'[a].receivers == |Naming(after, a, MayRecv)|
    {
      CountOneSlot(tables, after, p, s, a, MaySend);
      CountOneSlot(tables, after, p, s, a, MayRecv);
    }
    forall x: nat, y: nat | x < |after| && y < MAX_CAPS ensures NamesLive(after[x].caps[y], eps') {
      if (x, y) != (p, s) {
        assert NamesLive(tables[x].caps[y], eps);
        InNaming(after, id, MaySend);
        InNaming(after, id, MayRecv);
        if IsEndpoint(after[x].caps[y]) && after[x].caps[y].value.target.id == id {
          assert NamesThere(after, (x, y), id, MaySend) || NamesThere(after, (x, y), id, MayRecv);
        }
      }
    }
  }

  lemma DropKeeps(st: State, cur: Pid, slot: nat)
    requires Inv(st) && st.procs[cur].run.Ready? && slot < MAX_CAPS && IsEndpoint(st.tables[cur].caps[slot])
    ensures Inv(ReleaseStep(st, cur, slot).0) <==> !LastCounterpart(st, cur, slot)
  {
    hide Naming, HoldsRight, CountsAgree, NoneDangle, PhaseOf;
    var st' := ReleaseStep(st, cur, slot).0;
    var cap := st.tables[cur].caps[slot].value;
    NameIsLive(st.tables, st.eps, cur, slot);
    DropKeepsCounts(st.tables, st.eps, cur, slot, st'.tables);
    assert forall id: Eid :: st'.eps[id].queue == st.eps[id].queue;
    assert Queues(st'.eps) == Queues(st.eps);
    NotQueued(st, cur);
    if LastCounterpart(st, cur, slot) {
      assert !HasCounterpart(st'.eps[cap.target.id]);
    } else {
      forall id: Eid ensures HasCounterpart(st'.eps[id]) { assert HasCounterpart(st.eps[id]); }
      forall x: nat, y: nat, d: nat | x < MAX_PROCESSES && y < MAX_CAPS && RepliesTo(st'.tables[x].caps[y], d)
        ensures RepliesTo(st.tables[x].caps[y], d)
      {
      }
      forall x: Pid ensures Lawful(st', x) { StandingKeepsLawful(st, st', x); }
    }
  }

  lemma OtherReleaseKeeps(st: State, cur: Pid, slot: nat)
    requires Inv(st) && st.procs[cur].run.Ready? && !(slot < MAX_CAPS && IsEndpoint(st.tables[cur].caps[slot]))
    ensures Inv(ReleaseStep(st, cur, slot).0)
  {
    hide Inv, Duty, Tidy;
    var st' := ReleaseStep(st, cur, slot).0;
    var held := Held(st.tables[cur], slot);
    if held.Some? && !held.value.target.ReplyTo? {
      var cap := held.value;
      TablesWereTidy(st);
      TidyWithout(st.tables[cur], slot);
      WithoutSameDuties(st.tables[cur], slot);
      var tables := st.tables[cur := Without(st.tables[cur], slot)];
      if OnRelease(cap).ReclaimTo? && cap.origin.value.lender < MAX_PROCESSES {
        var o := cap.origin.value;
        NoDutyLent(cap, Origin(cur, o.home), o.lender);
        SendHomeSameDuties(tables[o.lender], o.home, LentTo(cap, Origin(cur, o.home), o.lender));
      }
      SameDutiesInv(st, st'.tables);
      assert st' == st.(tables := st'.tables);
    }
  }

  lemma TablesWereTidy(st: State)
    requires Inv(st)
    ensures forall x: Pid :: Tidy(st.tables[x]) && (st.procs[x].run.Empty? ==> st.tables[x] == NoCaps())
  {
  }

  lemma WithoutSameDuties(t: Table, slot: nat)
    requires slot < MAX_CAPS && (t.caps[slot].Some? ==> !t.caps[slot].value.target.EndpointCap? && !t.caps[slot].value.target.ReplyTo?)
    ensures SameDuties(t, Without(t, slot))
  {
  }

  lemma NoDutyLent(cap: Capability, source: Origin, dest: nat)
    requires Reclaimable(cap.target)
    ensures Duty(Some(LentTo(cap, source, dest))).None?
  {
  }

  /** Releasing keeps the invariant unless it gives up the last counterpart of a
      queue that already has waiters: nothing wakes those, unlike a death. */
  lemma ReleaseKeepsExactly(st: State, cur: Pid, slot: nat)
    requires Inv(st) && st.procs[cur].run.Ready?
    ensures Inv(ReleaseStep(st, cur, slot).0) <==> !LastCounterpart(st, cur, slot)
  {
    hide Inv, ReleaseStep;
    if slot < MAX_CAPS && IsEndpoint(st.tables[cur].caps[slot]) {
      DropKeeps(st, cur, slot);
    } else {
      OtherReleaseKeeps(st, cur, slot);
    }
  }

  // ----- death: reclaiming what was borrowed -----

  lemma ProcsAside(st: State, procs: seq<Proc>)
    requires Inv(st) && |procs| == MAX_PROCESSES
    requires forall p: Pid :: procs[p].run == st.procs[p].run && procs[p].isCall == st.procs[p].isCall
    ensures Inv(st.(procs := procs))
  {
    hide CountsAgree, NoneDangle, AllPaired, WaitersHold, RepliesUnique, RepliesOwed, Tidy, PhaseOf;
    var st' := st.(procs := procs);
    forall q: Pid ensures Lawful(st', q) {
      StandingKeepsLawful(st, st', q);
    }
  }

  /** Everything death-time reclamation leaves alone. */
  ghost predicate OnlyReclaimed(st: State, st': State, p: Pid) {
    && st'.eps == st.eps && st'.history == st.history && st'.tables[p] == st.tables[p] && st'.procs[p] == st.procs[p]
    && forall q: Pid :: st'.procs[q].run == st.procs[q].run && st'.procs[q].isCall == st.procs[q].isCall
  }

  lemma ReclaimOneKeeps(st: State, p: Pid, slot: nat)
    requires Inv(st) && st.procs[p].run.Ready? && slot < MAX_CAPS
    ensures Inv(ReclaimOne(st, p, slot)) && OnlyReclaimed(st, ReclaimOne(st, p, slot), p)
  {
    hide Counts, Waiters, Replies, AllLawful;
    var st' := ReclaimOne(st, p, slot);
    if st' != st {
      var cap := st.tables[p].caps[slot].value;
      var o := cap.origin.value;
      SendHomeSameDuties(st.tables[o.lender], o.home, ReclaimTarget(cap, p).value.1);
      SameDutiesInv(st, st'.tables);
      ProcsAside(st.(tables := st'.tables), st'.procs);
      assert st' == st.(tables := st'.tables).(procs := st'.procs);
    }
  }

  lemma {:induction false} ReclaimKeeps(st: State, p: Pid, slot: nat)
    requires Inv(st) && st.procs[p].run.Ready? && slot <= MAX_CAPS
    ensures Inv(ReclaimFrom(st, p, slot)) && OnlyReclaimed(st, ReclaimFrom(st, p, slot), p)
    decreases MAX_CAPS - slot
  {
    hide Inv, ReclaimOne;
    if slot < MAX_CAPS {
      ReclaimOneKeeps(st, p, slot);
      ReclaimKeeps(ReclaimOne(st, p, slot), p, slot + 1);
    }
  }

  // ----- death: waking, dropping, burying -----

  ghost function Beside(p: nat, t: set<nat>): set<(nat, nat)> {
    set s | s in t :: (p, s)
  }

  lemma {:induction false} BesideSize(p: nat, t: set<nat>)
    ensures |Beside(p, t)| == |t|
    decreases t
  {
    if t != {} {
      var s :| s in t;
      BesideSize(p, t - {s});
      assert Beside(p, t) == Beside(p, t - {s}) + {(p, s)};
    }
  }

  /** Emptying one table takes exactly its own tally off the counts. */
  lemma CountDrained(tables: seq<Table>, after: seq<Table>, p: nat, id: nat, right: Right)
    requires |after| == |tables| && p < |tables| && after[p] == NoCaps()
    requires forall q :: 0 <= q < |tables| && q != p ==> SameDuties(tables[q], after[q])
    ensures |Naming(after, id, right)| + Tally(tables[p], id, right) == |Naming(tables, id, right)|
  {
    hide Naming, Duty;
    InNaming(tables, id, right);
    InNaming(after, id, right);
    var own := Beside(p, TallySet(tables[p], id, right));
    BesideSize(p, TallySet(tables[p], id, right));
    forall a: (nat, nat) ensures a in Naming(tables, id, right) <==> a in Naming(after, id, right) + own {
      if a.0 < |tables| && a.1 < MAX_CAPS {
        if a.0 != p {
          DutyDecides(tables[a.0].caps[a.1], after[a.0].caps[a.1], id, right, [], 0);
        } else {
          assert a in own <==> a.1 in TallySet(tables[p], id, right);
        }
      }
    }
    assert Naming(tables, id, right) == Naming(after, id, right) + own;
    assert Naming(after, id, right) !! own;
  }

  lemma DrainKeepsCounts(tables: seq<Table>, eps: seq<Endpoint>, after: seq<Table>, eps': seq<Endpoint>, p: nat)
    requires CountsAgree(tables, eps) && NoneDangle(tables, eps) && |eps'| == |eps|
    requires |after| == |tables| && p < |tables| && after[p] == NoCaps()
    requires forall q :: 0 <= q < |tables| && q != p ==> SameDuties(tables[q], after[q])
    requires forall id :: 0 <= id < |eps| ==>
      eps'[id] == Drained(eps[id], tables[p], id) || (eps[id].inUse && eps'[id] == Drained(eps[id].(queue := []), tables[p], id))
    ensures CountsAgree(after, eps') && NoneDangle(after, eps')
  {
    hide Naming, Duty, Tally, NamesAny;
    forall id | 0 <= id < |eps|
      ensures eps'[id].senders == |Naming(after, id, MaySend)| && eps'[id].receivers == |Naming(after, id, MayRecv)|
    {
      CountDrained(tables, after, p, id, MaySend);
      CountDrained(tables, after, p, id, MayRecv);
    }
    forall x: nat, y: nat | x < |after| && y < MAX_CAPS ensures NamesLive(after[x].caps[y], eps') {
      if x != p && IsEndpoint(after[x].caps[y]) {
        DutyDecides(tables[x].caps[y], after[x].caps[y], 0, MaySend, eps, 0);
        assert NamesLive(tables[x].caps[y], eps);
        var id := after[x].caps[y].value.target.id;
        InNaming(after, id, MaySend);
        InNaming(after, id, MayRecv);
        assert NamesThere(after, (x, y), id, MaySend) || NamesThere(after, (x, y), id, MayRecv);
      }
    }
  }

  // ----- death: the remaining parts of the invariant -----

  ghost predicate WokenBy(st: State, p: Pid, c: Pid) {
    (Owes(st, p, c) && st.procs[c].run.Blocked?) || Stuck(st, p, c)
  }

  lemma ClearedSameDuties(t: Table, p: nat)
    ensures SameDuties(t, ClaimsCleared(t, p)) && (Tidy(t) ==> Tidy(ClaimsCleared(t, p)))
  {
  }

  lemma EndedTables(st: State, p: Pid)
    requires TablesTidy(st)
    ensures var st' := Ended(st, p);
            && st'.tables[p] == NoCaps() && st'.procs[p] == NoProc()
            && (forall q: Pid :: q != p ==> SameDuties(st.tables[q], st'.tables[q]) && Tidy(st'.tables[q]))
            && (forall q: Pid :: q != p && st.procs[q].run.Empty? ==> st'.tables[q] == NoCaps())
  {
    var st' := Ended(st, p);
    forall q: Pid | q != p
      ensures SameDuties(st.tables[q], st'.tables[q]) && Tidy(st'.tables[q])
      ensures st.procs[q].run.Empty? ==> st'.tables[q] == NoCaps()
    {
      ClearedSameDuties(st.tables[q], p);
      assert st.procs[q].run.Empty? ==> ClaimsCleared(NoCaps(), p) == NoCaps();
    }
  }

  /** A queue is as it was, or was stranded and is empty; what is left of it still
      has a counterpart. */
  lemma EndedQueues(st: State, p: Pid, id: Eid)
    requires Counts(st) && AllPaired(st.eps)
    ensures var e, e' := st.eps[id], Ended(st, p).eps[id];
            && HasCounterpart(e')
            && e'.queue == (if StrandedBy(st, p, id) then [] else e.queue)
            && (e'.queue != [] ==> e'.areSenders == e.areSenders)
            && (e' == Drained(e, st.tables[p], id) || (e.inUse && e' == Drained(e.(queue := []), st.tables[p], id)))
  {
    hide Tally, NamesAny, Naming, NoneDangle;
    assert HasCounterpart(st.eps[id]);
  }

  lemma EndedWaiters(st: State, p: Pid)
    requires Inv(st) && st.procs[p].run.Ready?
    ensures Waiters(Ended(st, p))
  {
    hide Replies, Counts, Lawful, Tidy, Duty, HoldsRight, StrandedBy;
    var st' := Ended(st, p);
    EndedTables(st, p);
    NotQueued(st, p);
    hide Ended;
    forall id: Eid
      ensures HasCounterpart(st'.eps[id]) && (st'.eps[id].queue == [] || st'.eps[id].queue == st.eps[id].queue)
      ensures st'.eps[id].queue != [] ==> st'.eps[id].areSenders == st.eps[id].areSenders
    {
      EndedQueues(st, p, id);
    }
    assert forall a: Eid :: Queues(st.eps)[a] == st.eps[a].queue && Queues(st'.eps)[a] == st'.eps[a].queue;
    forall id: Eid, i | 0 <= i < |st'.eps[id].queue|
      ensures HoldsRight(st'.tables[st'.eps[id].queue[i]], id, Side(st'.eps[id].areSenders))
    {
      var x := st.eps[id].queue[i];
      assert x in st.eps[id].queue;
      HoldsStill(st.tables[x], st'.tables[x], id, Side(st.eps[id].areSenders));
    }
  }

  lemma EndedReplies(st: State, p: Pid)
    requires Inv(st) && st.procs[p].run.Ready?
    ensures Replies(Ended(st, p))
  {
    hide Waiters, Counts, Tidy, Duty, PhaseOf;
    var st' := Ended(st, p);
    EndedTables(st, p);
    forall q: nat, k: nat, c: nat | q < MAX_PROCESSES && k < MAX_CAPS && RepliesTo(st'.tables[q].caps[k], c)
      ensures q != p && RepliesTo(st.tables[q].caps[k], c) && AwaitsReply(st'.history, c)
    {
      assert q != p;
      DutyDecides(st.tables[q].caps[k], st'.tables[q].caps[k], 0, MaySend, [], c);
      ReplyFindsItsCaller(st, q, k, c);
      assert Lawful(st, p);
      assert !Owes(st, p, c);
      assert !Stuck(st, p, c);
      assert st'.history[c] == st.history[c];
    }
    forall x: nat, y: nat, u: nat, v: nat, c: nat |
        x < MAX_PROCESSES && y < MAX_CAPS && u < MAX_PROCESSES && v < MAX_CAPS
        && RepliesTo(st'.tables[x].caps[y], c) && RepliesTo(st'.tables[u].caps[v], c)
      ensures x == u && y == v
    {
      OneReply(st.tables, x, y, u, v, c);
    }
  }

  lemma EndedLawful(st: State, p: Pid, c: Pid)
    requires Inv(st) && st.procs[p].run.Ready?
    ensures Lawful(Ended(st, p), c)
  {
    hide Counts, Duty, NamesAny, Tally, StrandedBy, WaitersHold, AllPaired, HasCounterpart;
    var st' := Ended(st, p);
    assert Lawful(st, p) && Lawful(st, c);
    EndedMembership(st, p, c);
    if c == p {
      PhaseStep(st.history[p], Exited);
    } else if Owes(st, p, c) && st.procs[c].run.Blocked? {
      var s :| 0 <= s < MAX_CAPS && ReplyIn(st.tables[p], s, c);
      ReplyFindsItsCaller(st, p, s, c);
      PhaseStep(st.history[c], Bereaved);
    } else if Stuck(st, p, c) {
      PhaseStep(st.history[c], Bereaved);
    } else {
      StandingKeepsLawful(st, st', c);
    }
  }

  /** Who is still queued afterwards, and where. */
  lemma EndedMembership(st: State, p: Pid, c: Pid)
    requires Inv(st) && st.procs[p].run.Ready?
    ensures var st' := Ended(st, p);
            && (Stuck(st, p, c) ==> !Queued(st'.eps, c))
            && (!Queued(st.eps, c) ==> !Queued(st'.eps, c))
            && (!Stuck(st, p, c) ==> forall id: Eid ::
                 && (c in st.eps[id].queue <==> c in st'.eps[id].queue)
                 && (c in st.eps[id].queue ==> st.eps[id].areSenders == st'.eps[id].areSenders))
  {
    hide Counts, Waiters, Replies, AllLawful, Duty, TablesTidy, StrandedBy, Drained, ReapedProc;
    var st' := Ended(st, p);
    PairedWas(st);
    forall id: Eid
      ensures st'.eps[id].queue == (if StrandedBy(st, p, id) then [] else st.eps[id].queue)
      ensures st'.eps[id].queue != [] ==> st'.eps[id].areSenders == st.eps[id].areSenders
    {
      EndedQueues(st, p, id);
    }
    hide Ended;
    if Stuck(st, p, c) {
      var id: Eid :| StrandedBy(st, p, id) && c in st.eps[id].queue;
      InOneQueue(st, c, id);
    }
  }

  lemma InOneQueue(st: State, c: Pid, id: Eid)
    requires Waiters(st) && c in st.eps[id].queue
    ensures forall a: Eid :: c in st.eps[a].queue ==> a == id
  {
    hide AllPaired, WaitersHold;
    assert forall a: Eid :: Queues(st.eps)[a] == st.eps[a].queue;
  }

  lemma EndedKeeps(st: State, p: Pid)
    requires Inv(st) && st.procs[p].run.Ready?
    ensures Inv(Ended(st, p))
  {
    hide Tally, NamesAny, Naming, Duty, Waiters, Replies, HoldsRight, StrandedBy, Lawful;
    var st' := Ended(st, p);
    EndedTables(st, p);
    EndedWaiters(st, p);
    EndedReplies(st, p);
    forall c: Pid ensures Lawful(st', c) { EndedLawful(st, p, c); }
    assert AllPaired(st.eps) by { PairedWas(st); }
    forall id: Eid
      ensures st'.eps[id] == Drained(st.eps[id], st.tables[p], id)
              || (st.eps[id].inUse && st'.eps[id] == Drained(st.eps[id].(queue := []), st.tables[p], id))
    {
      EndedQueues(st, p, id);
    }
    DrainKeepsCounts(st.tables, st.eps, st'.tables, st'.eps, p);
    EndedRuns(st, p);
  }

  lemma PairedWas(st: State)
    requires Waiters(st)
    ensures AllPaired(st.eps)
  {
  }

  lemma EndedRuns(st: State, p: Pid)
    ensures forall q: Pid :: q != p && Ended(st, p).procs[q].run.Empty? ==> st.procs[q].run.Empty?
  {
  }

  lemma DieKeeps(st: State, p: Pid)
    requires Inv(st) && st.procs[p].run.Ready?
    ensures Inv(Die(st, p))
  {
    hide Inv, Ended;
    ReclaimKeeps(st, p, 0);
    EndedKeeps(ReclaimFrom(st, p, 0), p);
  }
}
