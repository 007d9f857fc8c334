/** What each IPC entry does when it goes through, told from its arguments: who waits,
    what a mint, a spawn or a release gives and takes, and what a death leaves behind
    (kernel/src/ipc.rs, kernel/src/scheduler.rs, kernel/src/syscall.rs). */
module IpcEffects {
  import opened Prelude
  import opened Capabilities
  import opened WaitQueues
  import opened IpcModel
  import opened IpcSafety
  import opened IpcSteps
  import opened IpcDeath
  import opened IpcRuns
  import opened IpcLending
  import opened IpcLoans
  import opened IpcWords
  import opened IpcLandings

  // ----- waiting -----

  /** The process has parked, last in the queue, and nothing is told it; beside what it
      has pending nothing else changed. */
  predicate Waits(st: State, after: State, told: Outcome, cur: Pid, id: Eid, asSender: bool) {
    && told.None? && after.procs[cur].run.Blocked? && after.tables == st.tables
    && after.eps == st.eps[id := st.eps[id].(queue := st.eps[id].queue + [cur], areSenders := asSender)]
    && forall q: Pid :: q != cur ==> after.procs[q] == st.procs[q]
  }

  /** With nobody waiting on the other side, but somebody who might yet come, all three
      operations wait their turn; a sender and a caller leave their letter. */
  lemma NobodyThereWaits(st: State, cur: Pid, slot: nat, word: nat, cap: Option<nat>, id: Eid)
    requires Inv(st) && st.procs[cur].run.Ready? && Sound(st)
    ensures EndpointAt(st, cur, slot, MaySend) == Some(id) && (st.eps[id].queue == [] || st.eps[id].areSenders)
            && Naming(st.tables, id, MayRecv) != {} ==>
      var ((sent, a), (called, b)) := (SendStep(st, cur, slot, word, cap), CallStep(st, cur, slot, word));
      && Waits(st, sent, a, cur, id, true) && LetterOf(sent, cur) == Letter(cur, word, cap, false)
      && Waits(st, called, b, cur, id, true) && LetterOf(called, cur) == Letter(cur, word, None, true)
    ensures EndpointAt(st, cur, slot, MayRecv) == Some(id) && (st.eps[id].queue == [] || !st.eps[id].areSenders)
            && Naming(st.tables, id, MaySend) != {} ==>
      var (got, c) := RecvStep(st, cur, slot);
      Waits(st, got, c, cur, id, false)
  {
    hide Inv, Naming, EndpointAt, Transfer, Install;
    CountedRight(st, id);
  }

  // ----- what arrives in a table -----

  predicate Open(t: Table, s: nat)
    requires s < MAX_CAPS
  {
    t.caps[s].None? && !t.reserved[s]
  }

  /** The capability is in the first open slot, and nothing else in the table changed. */
  ghost predicate Gains(t: Table, u: Table, s: nat, cap: Capability) {
    && s < MAX_CAPS && Open(t, s) && (forall k :: 0 <= k < s ==> !Open(t, k))
    && u.caps == t.caps[s := Some(cap)] && u.reserved == t.reserved
  }

  ghost predicate Packed(t: Table) {
    forall s :: 0 <= s < MAX_CAPS ==> !Open(t, s)
  }

  lemma InstallGains(t: Table, cap: Capability)
    ensures var (u, s) := Install(t, cap); if s.None? then Packed(t) && u == t else Gains(t, u, s.value, cap)
  {
    forall k: nat | k < MAX_CAPS ensures Open(t, k) == Available(t, k) {
    }
  }

  /** A mint puts exactly that capability, owned outright, in the first open slot, and
      does nothing if there is none. */
  lemma MintGives(st: State, p: Pid, target: CapObject, rights: set<Right>)
    ensures var after := Mint(st, p, target, rights);
      && after.procs == st.procs && (Packed(st.tables[p]) ==> after == st)
      && (!Packed(st.tables[p]) ==>
            && (exists s :: Gains(st.tables[p], after.tables[p], s, Capability(target, rights, None)))
            && forall q: Pid :: q != p ==> after.tables[q] == st.tables[q])
  {
    hide Install;
    InstallGains(st.tables[p], Capability(target, rights, None));
    var s := Install(st.tables[p], Capability(target, rights, None)).1;
    if s.Some? { assert Gains(st.tables[p], Mint(st, p, target, rights).tables[p], s.value, Capability(target, rights, None)); }
  }

  /** Creating an endpoint opens the first that is closed, blank; starting a process
      fills the first empty slot with one that holds nothing but its budget. */
  lemma CreateOpens(st: State)
    ensures var after := CreateEndpoint(st);
      || ((forall id: Eid :: st.eps[id].inUse) && after == st)
      || exists id: Eid :: !st.eps[id].inUse && (forall k :: 0 <= k < id ==> st.eps[k].inUse)
           && after == st.(eps := st.eps[id := Endpoint(true, [], false, 0, 0)])
  {
  }

  predicate OnlyBudget(t: Table) {
    && t.caps[0] == Some(Capability(CpuTime(1024), {MayConsume}, None))
    && forall s :: 0 <= s < MAX_CAPS ==> !t.reserved[s] && (s > 0 ==> t.caps[s].None?)
  }

  lemma BootStarts(st: State)
    ensures var after := Boot(st);
      || ((forall p: Pid :: !st.procs[p].run.Empty?) && after == st)
      || exists p: Pid :: st.procs[p].run.Empty? && (forall k :: 0 <= k < p ==> !st.procs[k].run.Empty?)
           && after.procs[p].run.Ready? && after.procs[p].landing == None && OnlyBudget(after.tables[p]) && after.eps == st.eps
           && forall q: Pid :: q != p ==> after.procs[q] == st.procs[q] && after.tables[q] == st.tables[q]
  {
    if FreeProc(st.procs).Some? {
      var p: Pid := FreeProc(st.procs).value;
      assert st.procs[p].run.Empty?;
    }
  }

  // ----- spawn -----

  /** The child's table: its budget, the send half of the result endpoint, and the gift,
      which its giver may claim back if it owned it. */
  predicate ChildHolds(t: Table, ep: Eid, gift: Option<Capability>, source: Origin) {
    && t.caps[0] == Some(Capability(CpuTime(1024), {MayConsume}, None))
    && t.caps[1] == Some(Capability(EndpointCap(ep), {MaySend}, None))
    && t.caps[2] == (match gift
                     case Some(cap) => Some(Capability(cap.target, cap.rights, if cap.origin.Some? then cap.origin else Some(source)))
                     case None => None)
    && forall s :: 0 <= s < MAX_CAPS ==> !t.reserved[s] && (s > 2 ==> t.caps[s].None?)
  }

  function GiftOf(t: Table, transfer: Option<nat>): Option<Capability> {
    if transfer.Some? then Held(t, transfer.value) else None
  }

  /** What the parent has once the gift has left it. */
  function LeftWith(t: Table, transfer: Option<nat>): Table {
    if GiftOf(t, transfer).Some? then LentFrom(t, transfer.value) else t
  }

  lemma SpawnQueues(st: State, cur: Pid, transfer: Option<nat>, ep: Eid)
    requires FreeEndpoint(st.eps) == Some(ep) && FreeProc(st.procs).Some?
    ensures var after := SpawnStep(st, cur, transfer, true).0;
      forall id: Eid ::
        && after.eps[id].queue == (if id == ep then [] else st.eps[id].queue) && (id == ep ==> after.eps[id].inUse)
        && after.eps[id].areSenders == if id == ep then false else st.eps[id].areSenders
  {
    hide FreshTable, Install, LentFrom, LentToChild;
  }

  /** A spawn that goes through: a child that was not there, an endpoint nobody had, the
      gift in the child's hands and no longer in the parent's, and the way back. */
  lemma SpawnConnects(st: State, cur: Pid, transfer: Option<nat>) returns (c: Pid, ep: Eid)
    requires Inv(st) && st.procs[cur].run.Ready? && FreeEndpoint(st.eps).Some? && FreeProc(st.procs).Some?
    ensures st.procs[c].run.Empty? && c != cur && !st.eps[ep].inUse
    ensures var (after, handle) := SpawnStep(st, cur, transfer, true);
            var left := LeftWith(st.tables[cur], transfer);
      && after.procs == st.procs[c := NoProc().(run := Ready)]
      && ChildHolds(after.tables[c], ep, GiftOf(st.tables[cur], transfer), Origin(cur, if transfer.Some? then transfer.value else 0))
      && (forall q: Pid :: q != c && q != cur ==> after.tables[q] == st.tables[q])
      && (if handle.None? then Packed(left) && after.tables[cur] == left
          else Gains(left, after.tables[cur], handle.value, Capability(EndpointCap(ep), {MayRecv}, None)))
    ensures var after := SpawnStep(st, cur, transfer, true).0;
      && after.eps[ep].inUse && after.eps[ep].queue == []
      && forall id: Eid :: id != ep ==> after.eps[id].queue == st.eps[id].queue
  {
    hide Inv, LentFrom, Noted, Unnoted, Install, Gains, Packed;
    c, ep := FreeProc(st.procs).value, FreeEndpoint(st.eps).value;
    SpawnQueues(st, cur, transfer, ep);
    InstallGains(LeftWith(st.tables[cur], transfer), Capability(EndpointCap(ep), {MayRecv}, None));
  }

  /** The parent that waits on its handle is told whatever word the child sends back. */
  lemma ChildReportsBack(st: State, cur: Pid, transfer: Option<nat>, word: nat) returns (c: Pid, waiting: State, after: State)
    requires Inv(st) && st.procs[cur].run.Ready? && FreeEndpoint(st.eps).Some? && FreeProc(st.procs).Some?
    requires SpawnStep(st, cur, transfer, true).1.Some?
    ensures var (begun, handle) := SpawnStep(st, cur, transfer, true);
      && st.procs[c].run.Empty? && Sound(begun) && Sound(waiting)
      && (waiting, None) == RecvStep(begun, cur, handle.value) && after == SendStep(waiting, c, 1, word, None).0
      && after.procs[cur].run.Ready? && after.procs[cur].frame == Answer(Delivered, Some(word), None)
  {
    hide Inv, SpawnStep, RecvStep, SendStep, Naming, LeftWith;
    var ep: Eid;
    c, ep := SpawnConnects(st, cur, transfer);
    SpawnKeeps(st, cur, transfer, true);
    var (begun, handle) := SpawnStep(st, cur, transfer, true);
    InvIsSound(begun);
    assert Names(begun.tables[c].caps[1], ep, MaySend) && Names(begun.tables[cur].caps[handle.value], ep, MayRecv);
    assert EndpointAt(begun, cur, handle.value, MayRecv) == Some(ep);
    NamedSomewhere(begun, c, 1, ep, MaySend);
    NobodyThereWaits(begun, cur, handle.value, 0, None, ep);
    RecvKeeps(begun, cur, handle.value);
    waiting := RecvStep(begun, cur, handle.value).0;
    InvIsSound(waiting);
    assert EndpointAt(waiting, c, 1, MaySend) == Some(ep);
    SendArrives(waiting, c, 1, word, None, ep);
    after := SendStep(waiting, c, 1, word, None).0;
  }

  lemma NamedSomewhere(st: State, p: Pid, s: nat, id: Eid, right: Right)
    requires s < MAX_CAPS && Names(st.tables[p].caps[s], id, right)
    ensures Naming(st.tables, id, right) != {}
  {
    InNaming(st.tables, id, right);
    assert NamesThere(st.tables, (p, s), id, right);
  }

  // ----- release -----

  /** A release goes through if and only if the slot holds something other than a right
      to reply; then the slot is empty. Nothing else in the table changes, unless the
      capability was the process's own to have back. */
  lemma ReleaseEmpties(st: State, cur: Pid, slot: nat)
    ensures var (after, ok) := ReleaseStep(st, cur, slot); var held := Held(st.tables[cur], slot);
      && (ok <==> held.Some? && !held.value.target.ReplyTo?) && (!ok ==> after == st)
      && (ok && (held.value.origin.Some? ==> held.value.origin.value.lender != cur) ==>
            after.tables[cur] == Slots(st.tables[cur].caps[slot := None], st.tables[cur].reserved))
      && after.procs == st.procs
  {
    hide SendHome, LentTo;
  }

  // ----- death -----

  /** After a death its slot is empty and its table holds nothing; everyone else holds
      what they held, and nobody owes it anything back. */
  lemma DeathLeavesNothing(st: State, p: Pid)
    requires Inv(st) && st.procs[p].run.Ready?
    ensures var after := Die(st, p);
      && after.procs[p].run.Empty? && (forall s :: 0 <= s < MAX_CAPS ==> after.tables[p].caps[s].None? && !after.tables[p].reserved[s])
      && forall q: Pid, s: nat :: q != p && s < MAX_CAPS ==>
           && (st.tables[q].caps[s].Some? ==> SameGrant(after.tables[q].caps[s], st.tables[q].caps[s]))
           && !ClaimedBy(after.tables[q].caps[s], p)
  {
    hide Inv, ReclaimFrom, Ended, CapAt;
    var mid := ReclaimFrom(st, p, 0);
    ReclaimFills(st, p, 0);
    EndedEmpties(mid, p);
    forall q: Pid, s: nat | q != p && s < MAX_CAPS
      ensures st.tables[q].caps[s].Some? ==> SameGrant(Die(st, p).tables[q].caps[s], st.tables[q].caps[s])
    {
      EndedGrants(mid, p, q);
      if st.tables[q].caps[s].Some? { FilledAt(st.tables, mid.tables, q, s); }
    }
  }

  predicate ClaimedBy(c: Option<Capability>, lender: nat) {
    c.Some? && c.value.origin.Some? && c.value.origin.value.lender == lender
  }

  lemma FilledAt(was: seq<Table>, now: seq<Table>, q: nat, s: nat)
    requires OnlyFills(was, now) && q < |was| && s < MAX_CAPS && was[q].caps[s].Some?
    ensures |now| == |was| && now[q].caps[s] == was[q].caps[s]
  {
    assert CapAt(was, Place(q, s)).Some?;
  }

  lemma EndedEmpties(st: State, p: Pid)
    ensures var after := Ended(st, p);
      && after.procs[p].run.Empty? && (forall s :: 0 <= s < MAX_CAPS ==> after.tables[p].caps[s].None? && !after.tables[p].reserved[s])
      && forall q: Pid, s: nat :: q != p && s < MAX_CAPS ==> !ClaimedBy(after.tables[q].caps[s], p)
  {
    hide Owes, Stuck, StrandedBy, Drained;
  }
}
