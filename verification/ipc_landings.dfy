/** How a lender learns where a capability that came home at a borrower's death landed
    (kernel/src/scheduler.rs, kernel/src/ipc.rs). */
module IpcLandings {
  import opened Prelude
  import opened Capabilities
  import opened WaitQueues
  import opened IpcModel
  import opened IpcSafety
  import opened IpcSteps
  import opened IpcDeath
  import opened IpcRuns
  import opened IpcLending
  import opened IpcLoans
  import W = IpcWords

  /** The capability in slot `k` of the dying `p` is on loan from `lender` and of a kind
      that is given back: a framebuffer, a block range or an event source. */
  predicate Borrowed(t: Table, k: nat, lender: nat) {
    && k < MAX_CAPS && t.caps[k].Some? && t.caps[k].value.origin.Some? && t.caps[k].value.origin.value.lender == lender
    && var target := t.caps[k].value.target;
       target.Framebuffer? || target.BlockRange? || target.EventSource?
  }

  /** There is a place for it: the slot kept for it, or any free one. */
  predicate HasPlace(t: Table, mine: Table, k: nat)
    requires k < MAX_CAPS && t.caps[k].Some? && t.caps[k].value.origin.Some?
  {
    HasRoom(mine) || AwaitsReturn(mine, t.caps[k].value.origin.value.home)
  }

  predicate ComesBack(t: Table, mine: Table, k: nat, lender: nat) {
    Borrowed(t, k, lender) && HasPlace(t, mine, k)
  }

  /** The first slot from `from` on whose capability the lender has a place for. */
  ghost predicate FirstBack(t: Table, mine: Table, from: nat, k: nat, lender: nat) {
    from <= k && ComesBack(t, mine, k, lender) && forall j :: from <= j < k ==> !ComesBack(t, mine, j, lender)
  }

  ghost predicate NoneBack(t: Table, mine: Table, from: nat, lender: nat) {
    forall k :: from <= k < MAX_CAPS ==> !ComesBack(t, mine, k, lender)
  }

  /** One slot of the reclamation, as one lender sees it. */
  lemma OneSlotTells(st: State, p: Pid, k: nat, lender: Pid)
    requires k < MAX_CAPS && lender != p && !st.procs[lender].run.Empty?
    ensures var (after, back) := (ReclaimOne(st, p, k), ComesBack(st.tables[p], st.tables[lender], k, lender));
      && after.tables[p] == st.tables[p] && after.procs[lender].run == st.procs[lender].run
      && (!back ==> after.tables[lender] == st.tables[lender] && after.procs[lender] == st.procs[lender])
      && (back ==> LandsIn(st, after, p, k, lender))
  {
    hide FirstFree;
  }

  /** The capability is in an empty slot of the lender's, owned outright, and the lender
      has that slot to be told, unless it has an earlier one. */
  predicate LandsIn(st: State, after: State, p: Pid, k: nat, lender: Pid)
    requires k < MAX_CAPS
  {
    var (seen, was) := (after.procs[lender].landing, st.procs[lender].landing);
    && seen.Some? && (was.Some? ==> seen == was)
    && (was.None? ==>
          && seen.value < MAX_CAPS && st.tables[lender].caps[seen.value].None? && st.tables[p].caps[k].Some?
          && after.tables[lender].caps[seen.value] == Some(st.tables[p].caps[k].value.(origin := None)))
  }

  lemma {:induction false} SeenStays(st: State, p: Pid, slot: nat, lender: Pid)
    requires slot <= MAX_CAPS && st.procs[lender].landing.Some?
    ensures ReclaimFrom(st, p, slot).procs[lender].landing == st.procs[lender].landing
    decreases MAX_CAPS - slot
  {
    if slot < MAX_CAPS {
      OneSlotKeepsSeen(st, p, slot, lender);
      hide ReclaimOne;
      SeenStays(ReclaimOne(st, p, slot), p, slot + 1, lender);
    }
  }

  lemma OneSlotKeepsSeen(st: State, p: Pid, slot: nat, lender: Pid)
    requires slot < MAX_CAPS && st.procs[lender].landing.Some?
    ensures ReclaimOne(st, p, slot).procs[lender].landing == st.procs[lender].landing
  {
    hide SendHome, ReclaimTarget;
  }

  /** The whole reclamation: the lender has the slot of the first capability that came
      back to be told, unless it had one already; with none it is as it was. */
  lemma {:induction false} ReclaimTells(st: State, p: Pid, slot: nat, lender: Pid)
    requires slot <= MAX_CAPS && lender != p && !st.procs[lender].run.Empty?
    ensures NoneBack(st.tables[p], st.tables[lender], slot, lender) ==>
      var after := ReclaimFrom(st, p, slot); after.tables[lender] == st.tables[lender] && after.procs[lender] == st.procs[lender]
    ensures forall k :: FirstBack(st.tables[p], st.tables[lender], slot, k, lender) ==> LandsIn(st, ReclaimFrom(st, p, slot), p, k, lender)
    decreases MAX_CAPS - slot
  {
    if slot < MAX_CAPS {
      hide ReclaimOne, ComesBack;
      OneSlotTells(st, p, slot, lender);
      var one := ReclaimOne(st, p, slot);
      var mine := st.tables[lender];
      if ComesBack(st.tables[p], mine, slot, lender) {
        SeenStays(one, p, slot + 1, lender);
        ReclaimFills(one, p, slot + 1);
        var s := one.procs[lender].landing.value;
        if st.procs[lender].landing.None? { assert CapAt(one.tables, Place(lender, s)).Some?; }
        forall k | FirstBack(st.tables[p], mine, slot, k, lender) ensures LandsIn(st, ReclaimFrom(st, p, slot), p, k, lender) {
          assert k == slot;
        }
      } else {
        ReclaimTells(one, p, slot + 1, lender);
        forall k | FirstBack(st.tables[p], mine, slot, k, lender) ensures LandsIn(st, ReclaimFrom(st, p, slot), p, k, lender) {
          assert k != slot;
          assert FirstBack(one.tables[p], mine, slot + 1, k, lender);
        }
      }
    }
  }

  /** A death, as a lender that outlives it sees it. `seen` is the slot it has to be
      told: of the first capability that came back, or the one it had. A caller owed a
      reply is woken without it, a stranded waiter with it, and both have it no longer;
      anyone else has it still to be told. */
  lemma DeathTellsTheLender(st: State, p: Pid, lender: Pid) returns (seen: Option<nat>)
    requires Inv(st) && st.procs[p].run.Ready? && lender != p && !st.procs[lender].run.Empty?
    ensures NoneBack(st.tables[p], st.tables[lender], 0, lender) ==> seen == st.procs[lender].landing
    ensures st.procs[lender].landing.Some? ==> seen == st.procs[lender].landing
    ensures forall k: nat :: FirstBack(st.tables[p], st.tables[lender], 0, k, lender) && st.procs[lender].landing.None? ==>
      && seen.Some? && seen.value < MAX_CAPS && st.tables[lender].caps[seen.value].None?
      && W.SameGrant(Die(st, p).tables[lender].caps[seen.value], st.tables[p].caps[k])
    ensures var (was, now) := (st.procs[lender], Die(st, p).procs[lender]);
      if Owes(st, p, lender) && was.run.Blocked? then
        now.run.Ready? && now.frame == Answer(PeerDied, Some(0), None) && now.landing == None
      else if Stuck(st, p, lender) then
        now.run.Ready? && now.frame == Answer(PeerDied, Some(0), seen) && now.landing == None
      else now.run == was.run && now.frame == was.frame && now.landing == seen
  {
    hide Counts, Waiters, Replies, AllLawful, TablesTidy, ReclaimFrom, ComesBack, StrandedBy, NoneBack, FirstBack;
    ReclaimTells(st, p, 0, lender);
    ReclaimKeeps(st, p, 0);
    var mid := ReclaimFrom(st, p, 0);
    seen := mid.procs[lender].landing;
    SameStuck(st, mid, p, lender);
    FrameStays(st, p, 0, lender);
    EndedGrants(mid, p, lender);
    if st.procs[lender].landing.Some? { SeenStays(st, p, 0, lender); }
    forall k: nat | FirstBack(st.tables[p], st.tables[lender], 0, k, lender) && st.procs[lender].landing.None?
      ensures k < MAX_CAPS && LandsIn(st, mid, p, k, lender)
    {
      FirstIsBack(st.tables[p], st.tables[lender], k, lender);
    }
  }

  lemma FirstIsBack(t: Table, mine: Table, k: nat, lender: nat)
    requires FirstBack(t, mine, 0, k, lender)
    ensures k < MAX_CAPS && t.caps[k].Some?
  {
  }

  lemma SameStuck(st: State, mid: State, p: Pid, c: Pid)
    requires mid.eps == st.eps && mid.tables[p] == st.tables[p]
    ensures Stuck(mid, p, c) == Stuck(st, p, c) && Owes(mid, p, c) == Owes(st, p, c)
  {
    assert forall id: Eid :: StrandedBy(mid, p, id) == StrandedBy(st, p, id);
  }

  lemma {:induction false} FrameStays(st: State, p: Pid, slot: nat, c: Pid)
    requires slot <= MAX_CAPS
    ensures ReclaimFrom(st, p, slot).procs[c].frame == st.procs[c].frame
    decreases MAX_CAPS - slot
  {
    if slot < MAX_CAPS {
      OneSlotKeepsFrame(st, p, slot, c);
      hide ReclaimOne;
      FrameStays(ReclaimOne(st, p, slot), p, slot + 1, c);
    }
  }

  lemma OneSlotKeepsFrame(st: State, p: Pid, slot: nat, c: Pid)
    requires slot < MAX_CAPS
    ensures ReclaimOne(st, p, slot).procs[c].frame == st.procs[c].frame
  {
    hide SendHome, ReclaimTarget;
  }

  lemma EndedGrants(st: State, p: Pid, q: Pid)
    requires q != p
    ensures forall s: nat :: s < MAX_CAPS && st.tables[q].caps[s].Some? ==>
      W.SameGrant(Ended(st, p).tables[q].caps[s], st.tables[q].caps[s])
  {
    hide Owes, Stuck, StrandedBy, Drained;
  }

  /** A receive on a dead peer tells the slot and forgets it, and changes nothing else;
      the next one tells none. */
  lemma RecvTellsOnce(st: State, cur: Pid, slot: nat)
    requires Sound(st) && W.IsDead(RecvStep(st, cur, slot).1)
    ensures var (after, told) := RecvStep(st, cur, slot);
      && told.value.landing == st.procs[cur].landing && after.procs[cur].landing == None
      && after == st.(procs := st.procs[cur := st.procs[cur].(landing := None)])
      && Sound(after) && W.IsDead(RecvStep(after, cur, slot).1) && RecvStep(after, cur, slot).1.value.landing == None
  {
    hide EndpointAt;
    SameResolution(st, RecvStep(st, cur, slot).0, cur, slot);
  }

  lemma SameResolution(st: State, after: State, cur: Pid, slot: nat)
    requires after.tables == st.tables && after.eps == st.eps
    ensures EndpointAt(after, cur, slot, MayRecv) == EndpointAt(st, cur, slot, MayRecv)
  {
  }

  /** Nothing else writes what a process has to be told: only a death, its own receive
      on a dead peer, and its slot being taken by a new process. */
  lemma OnlyDeathTells(st: State, op: Op, c: Pid)
    requires Inv(st) && Enabled(st, op) && Sound(st) && !op.OpDie? && !st.procs[c].run.Empty?
    requires !(op.OpRecv? && op.receiver == c && W.IsDead(W.ToldTo(st, op)))
    ensures Step(st, op).procs[c].landing == st.procs[c].landing
  {
    hide Inv, SendStep, RecvStep, Install, LentFrom, FreshTable, EndpointAt, SendHome, LentTo;
    match op {
      case OpSend(p, slot, msg, cap) => SendKeepsTold(st, p, slot, msg, cap, c);
      case OpRecv(p, slot) => RecvKeepsTold(st, p, slot, c);
      case _ =>
    }
  }

  lemma SendKeepsTold(st: State, p: Pid, slot: nat, msg: nat, cap: Option<nat>, c: Pid)
    requires Inv(st) && Sound(st)
    ensures SendStep(st, p, slot, msg, cap).0.procs[c].landing == st.procs[c].landing
  {
    hide Inv, Transfer, EndpointAt;
    var at := EndpointAt(st, p, slot, MaySend);
    if at.Some? && Peer(st, at.value, false).Some? && cap.Some? {
      PopKeeps(st, at.value, false);
      W.TransferLeavesProcs(Popped(st, at.value), p, cap.value, st.eps[at.value].queue[0]);
    }
  }

  lemma RecvKeepsTold(st: State, p: Pid, slot: nat, c: Pid)
    requires Inv(st) && Sound(st) && (c == p ==> !W.IsDead(RecvStep(st, p, slot).1))
    ensures RecvStep(st, p, slot).0.procs[c].landing == st.procs[c].landing
  {
    hide Inv, Transfer, EndpointAt, Install;
    var at := EndpointAt(st, p, slot, MayRecv);
    if at.Some? && Peer(st, at.value, true).Some? {
      PopKeeps(st, at.value, true);
      var x := st.eps[at.value].queue[0];
      if st.procs[x].cap.Some? { W.TransferLeavesProcs(Popped(st, at.value), x, st.procs[x].cap.value, p); }
    }
  }
}
