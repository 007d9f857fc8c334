/** The IPC entry points as the kernel runs them: loops over tables, counters and
    linked queues, each proved to take the step the machine of `IpcModel` takes
    (kernel/src/ipc.rs, kernel/src/scheduler.rs). */
module IpcKernel {
  import opened Prelude
  import opened Capabilities
  import opened WaitQueues
  import opened IpcModel
  import opened IpcSafety
  import opened IpcSteps
  import opened IpcDeath
  import opened IpcReaping

  datatype Counter = Counter(inUse: bool, senders: nat, receivers: nat)

  method BlankTables() returns (tables: seq<CapTable>)
    ensures |tables| == MAX_PROCESSES
    ensures forall i :: 0 <= i < MAX_PROCESSES ==>
      fresh(tables[i].slots) && fresh(tables[i].reserved) && tables[i].Valid() && tables[i].View() == NoCaps()
    ensures forall i, j :: 0 <= i < j < MAX_PROCESSES ==>
      tables[i].slots != tables[j].slots && tables[i].reserved != tables[j].reserved
  {
    tables := [];
    for n := 0 to MAX_PROCESSES
      invariant |tables| == n
      invariant forall i :: 0 <= i < n ==>
        fresh(tables[i].slots) && fresh(tables[i].reserved) && tables[i].Valid() && tables[i].View() == NoCaps()
      invariant forall i, j :: 0 <= i < j < n ==>
        tables[i].slots != tables[j].slots && tables[i].reserved != tables[j].reserved
    {
      var one := new CapTable();
      tables := tables + [one];
    }
  }

  class Kernel {
    const waits: WaitTable
    const counters: array<Counter>
    const tables: seq<CapTable>
    const procs: array<Proc>
    /** What has happened to each process slot so far. */
    ghost var history: seq<seq<Event>>

    ghost function Repr(): set<object> {
      {this, waits, waits.queues, waits.links, counters, procs}
      + (set t | t in tables :: t.slots) + (set t | t in tables :: t.reserved)
    }

    ghost predicate Valid()
      reads Repr()
    {
      && waits.Valid() && counters.Length == MAX_ENDPOINTS && procs.Length == MAX_PROCESSES
      && |tables| == |history| == MAX_PROCESSES
      && (forall i :: 0 <= i < MAX_PROCESSES ==> tables[i].Valid())
      && forall i, j :: 0 <= i < j < MAX_PROCESSES ==>
           tables[i].slots != tables[j].slots && tables[i].reserved != tables[j].reserved
    }

    ghost function EndpointView(id: nat): Endpoint
      requires Valid() && id < MAX_ENDPOINTS
      reads Repr()
    {
      var c := counters[id];
      Endpoint(c.inUse, waits.waiting[id], waits.queues[id].areSenders, c.senders, c.receivers)
    }

    /** The state of the machine these fields denote. */
    ghost function View(): State
      requires Valid()
      reads Repr()
    {
      Machine(seq(MAX_PROCESSES, i requires 0 <= i < MAX_PROCESSES reads Repr() requires Valid() => tables[i].View()),
              procs[..],
              seq(MAX_ENDPOINTS, id requires 0 <= id < MAX_ENDPOINTS reads Repr() requires Valid() => EndpointView(id)),
              history)
    }

    constructor ()
      ensures Valid() && View() == Initial()
    {
      waits := new WaitTable();
      counters := new Counter[MAX_ENDPOINTS](_ => Counter(false, 0, 0));
      procs := new Proc[MAX_PROCESSES](_ => NoProc());
      var blank := BlankTables();
      tables := blank;
      history := seq(MAX_PROCESSES, _ => []);
      new;
      assert View().tables == Initial().tables;
      assert View().eps == Initial().eps;
    }

    // ----- single changes -----

    method SetProc(p: Pid, pr: Proc)
      requires Valid()
      modifies Repr()
      ensures Valid() && View() == old(View()).(procs := old(View()).procs[p := pr])
    {
      procs[p] := pr;
    }

    ghost method Record(p: Pid, e: Event)
      requires Valid()
      modifies this
      ensures Valid() && View() == Happened(old(View()), p, e)
    {
      history := history[p := history[p] + [e]];
    }

    method WakeWith(p: Pid, answer: Answer, ghost e: Event)
      requires Valid()
      modifies Repr()
      ensures Valid() && View() == Wake(old(View()), p, answer, e)
    {
      SetProc(p, procs[p].(run := Ready, frame := answer));
      Record(p, e);
    }

    method Block(p: Pid, ghost e: Event)
      requires Valid()
      modifies Repr()
      ensures Valid() && View() == Park(old(View()), p, e)
    {
      SetProc(p, procs[p].(run := Blocked));
      Record(p, e);
    }

    method TakeReclaimLanding(p: Pid) returns (landing: Option<nat>)
      requires Valid()
      modifies Repr()
      ensures Valid() && View() == TakeLanding(old(View()), p) && landing == old(View()).procs[p].landing
    {
      landing := procs[p].landing;
      SetProc(p, procs[p].(landing := None));
    }

    method Place(p: Pid, cap: Capability) returns (landing: Option<nat>)
      requires Valid()
      modifies Repr()
      ensures Valid() && landing == Install(old(View()).tables[p], cap).1
      ensures View() == WithTable(old(View()), p, Install(old(View()).tables[p], cap).0)
    {
      landing := tables[p].PlaceFirst(cap);
      TablesChanged(p);
    }

    method PlaceReturning(p: Pid, cap: Capability, prior: Option<Origin>) returns (landing: Option<nat>)
      requires Valid()
      modifies Repr()
      ensures Valid() && landing == InstallHome(old(View()).tables[p], cap, prior, p).1
      ensures View() == WithTable(old(View()), p, InstallHome(old(View()).tables[p], cap, prior, p).0)
    {
      landing := tables[p].PlaceHome(cap, prior, p);
      TablesChanged(p);
    }

    /** `reclaim_to`, and failing that `reclaim`. */
    method PlaceHome(p: Pid, home: nat, cap: Capability) returns (landing: Option<nat>)
      requires Valid()
      modifies Repr()
      ensures Valid() && landing == SendHome(old(View()).tables[p], home, cap).1
      ensures View() == WithTable(old(View()), p, SendHome(old(View()).tables[p], home, cap).0)
    {
      hide Install, Landed, AwaitsReturn;
      landing := tables[p].ReclaimTo(home, cap);
      if landing.None? {
        landing := tables[p].PlaceFirst(cap);
      }
      TablesChanged(p);
    }

    method TakeForLend(p: Pid, slot: nat) returns (cap: Option<Capability>)
      requires Valid()
      modifies Repr()
      ensures Valid() && cap == Held(old(View()).tables[p], slot)
      ensures View() == if cap.Some? then WithTable(old(View()), p, LentFrom(old(View()).tables[p], slot)) else old(View())
    {
      cap := tables[p].RevokeForLend(slot);
      TablesChanged(p);
    }

    method Take(p: Pid, slot: nat) returns (cap: Option<Capability>)
      requires Valid() && slot < MAX_CAPS
      modifies Repr()
      ensures Valid() && cap == Held(old(View()).tables[p], slot)
      ensures View() == WithTable(old(View()), p, Without(old(View()).tables[p], slot))
    {
      cap := tables[p].Revoke(slot);
      TablesChanged(p);
    }

    method Look(p: Pid, slot: nat) returns (cap: Option<Capability>)
      requires Valid()
      ensures cap == Held(View().tables[p], slot)
    {
      if slot < MAX_CAPS {
        return tables[p].slots[slot];
      }
      return None;
    }

    method Counts(id: Eid) returns (c: Counter)
      requires Valid()
      ensures var e := View().eps[id]; c == Counter(e.inUse, e.senders, e.receivers)
    {
      c := counters[id];
    }

    method SetCounts(id: Eid, c: Counter)
      requires Valid()
      modifies Repr()
      ensures Valid() && View() == old(View()).(eps := old(View()).eps[id :=
        old(View()).eps[id].(inUse := c.inUse, senders := c.senders, receivers := c.receivers)])
    {
      counters[id] := c;
      EpsChanged(id);
    }

    method QueueIsEmpty(id: Eid) returns (b: bool)
      requires Valid()
      ensures b == (View().eps[id].queue == [])
    {
      b := waits.queues[id].head.None?;
    }

    /** `note_cap_added`. */
    method NoteAdded(cap: Capability)
      requires Valid()
      modifies Repr()
      ensures Valid() && View() == old(View()).(eps := Noted(old(View()).eps, cap))
    {
      hide Kernel.View, Kernel.Valid;
      if cap.target.EndpointCap? && cap.target.id < MAX_ENDPOINTS {
        var c := Counts(cap.target.id);
        if MaySend in cap.rights {
          c := c.(senders := c.senders + 1);
        }
        if MayRecv in cap.rights {
          c := c.(receivers := c.receivers + 1);
        }
        SetCounts(cap.target.id, c);
      }
    }

    method Uncount(cap: Capability)
      requires Valid()
      modifies Repr()
      ensures Valid() && View() == old(View()).(eps := Unnoted(old(View()).eps, cap))
    {
      hide Kernel.View, Kernel.Valid;
      if cap.target.EndpointCap? && cap.target.id < MAX_ENDPOINTS {
        var c := Counts(cap.target.id);
        if MaySend in cap.rights {
          c := c.(senders := Minus(c.senders, 1));
        }
        if MayRecv in cap.rights {
          c := c.(receivers := Minus(c.receivers, 1));
        }
        SetCounts(cap.target.id, c);
      }
    }

    /** `note_cap_removed`; the queue of an endpoint freed here is empty. */
    method NoteRemoved(cap: Capability, free: bool)
      requires Valid()
      modifies Repr()
      ensures Valid()
      ensures View() == old(View()).(eps := if free then Dropped(old(View()).eps, cap) else Unnoted(old(View()).eps, cap))
    {
      hide Kernel.View, Kernel.Valid;
      Uncount(cap);
      if free && cap.target.EndpointCap? && cap.target.id < MAX_ENDPOINTS {
        var c := Counts(cap.target.id);
        var nobody := QueueIsEmpty(cap.target.id);
        if c.senders == 0 && c.receivers == 0 && nobody {
          Free(cap.target.id);
        }
      }
    }

    method Free(id: Eid)
      requires Valid() && View().eps[id].queue == []
      modifies Repr()
      ensures Valid() && View() == old(View()).(eps := old(View()).eps[id := NoEndpoint()])
    {
      waits.Reset(id);
      counters[id] := Counter(false, 0, 0);
      EpsChanged(id);
    }

    method TakeWaiting(id: Eid, wantSenders: bool) returns (r: Option<nat>)
      requires Valid()
      modifies Repr()
      ensures Valid() && r == Peer(old(View()), id, wantSenders)
      ensures View() == if r.Some? then Popped(old(View()), id) else old(View())
    {
      hide Chain, Separate;
      r := waits.TakeIf(id, wantSenders);
      EpsChanged(id);
    }

    method EnqueueWaiter(id: Eid, p: Pid, areSenders: bool)
      requires Valid() && !Queued(View().eps, p)
      modifies Repr()
      ensures Valid() && View() == Enqueued(old(View()), id, p, areSenders)
    {
      hide Chain, Separate;
      NotWaiting(p);
      waits.Enqueue(id, p, areSenders);
      EpsChanged(id);
    }

    lemma NotWaiting(p: Pid)
      requires Valid() && !Queued(View().eps, p)
      ensures !Waits(waits.waiting, p)
    {
      assert forall a: Eid :: View().eps[a].queue == waits.waiting[a];
    }

    /** Only table `p` differs from what it was. */
    twostate lemma TablesChanged(p: Pid)
      requires old(Valid()) && Valid()
      requires forall q: Pid :: q != p ==> tables[q].View() == old(tables[q].View())
      ensures View().tables == old(View()).tables[p := tables[p].View()]
    {
    }

    /** Only endpoint `id` differs from what it was. */
    twostate lemma EpsChanged(id: Eid)
      requires old(Valid()) && Valid()
      requires forall a: Eid :: a != id ==> EndpointView(a) == old(EndpointView(a))
      ensures View().eps == old(View()).eps[id := EndpointView(id)]
    {
    }

    /** `endpoint_id_for`. */
    method Resolve(p: Pid, slot: nat, right: Right) returns (id: Option<nat>)
      requires Valid()
      ensures id == EndpointAt(View(), p, slot, right)
    {
      var cap := Look(p, slot);
      if cap.Some? && right in cap.value.rights && cap.value.target.EndpointCap? && cap.value.target.id < MAX_ENDPOINTS
         && counters[cap.value.target.id].inUse {
        return Some(cap.value.target.id);
      }
      return None;
    }

    // ----- send, recv, call, reply, release -----

    /** `transfer_current_to_blocked` and `transfer_blocked_to_current`. */
    method MoveCap(src: Pid, slot: nat, dst: Pid) returns (landing: Option<nat>)
      requires Valid() && src != dst
      modifies Repr()
      ensures Valid() && (View(), landing) == Transfer(old(View()), src, slot, dst)
    {
      hide Kernel.View, Kernel.Valid, LentFrom, InstallHome, Install, LentTo, Noted, Unnoted;
      var held := TakeForLend(src, slot);
      if held.None? {
        return None;
      }
      var cap := held.value;
      NoteRemoved(cap, false);
      RefusedInstall(View().tables[dst], LentTo(cap, Origin(src, slot), dst), cap.origin, dst);
      landing := PlaceReturning(dst, LentTo(cap, Origin(src, slot), dst), cap.origin);
      if landing.None? {
        var _ := Place(src, cap);
        assert View().tables == old(View()).tables[src := View().tables[src]];
      }
      NoteAdded(cap);
    }

    method IpcSend(cur: Pid, slot: nat, msg: nat, cap: Option<nat>) returns (out: Outcome)
      requires Valid() && Inv(View()) && View().procs[cur].run.Ready?
      modifies Repr()
      ensures Valid() && Inv(View())
      ensures (View(), out) == SendStep(old(View()), cur, slot, msg, cap)
    {
      hide Kernel.View, Kernel.Valid, Inv, Transfer, EndpointAt, InTransit;
      InvIsSound(View());
      SendKeeps(View(), cur, slot, msg, cap);
      var id := Resolve(cur, slot, MaySend);
      if id.None? {
        return Some(Answer(Failed, None, None));
      }
      PeersAreOthers(View(), cur, id.value, false);
      var receiver := TakeWaiting(id.value, false);
      if receiver.Some? {
        var landing := None;
        if cap.Some? {
          landing := MoveCap(cur, cap.value, receiver.value);
        }
        WakeWith(receiver.value, Answer(Delivered, Some(msg), landing), Rendezvous);
        return Some(Answer(Delivered, None, None));
      }
      var c := Counts(id.value);
      if c.receivers == 0 {
        return Some(Answer(PeerDied, None, None));
      }
      SetPending(cur, msg, cap, false);
      EnqueueWaiter(id.value, cur, true);
      Block(cur, ParkedInQueue);
      return None;
    }

    method SetPending(p: Pid, msg: nat, cap: Option<nat>, isCall: bool)
      requires Valid()
      modifies Repr()
      ensures Valid() && View() == Pending(old(View()), p, msg, cap, isCall)
    {
      SetProc(p, procs[p].(msg := msg, cap := cap, isCall := isCall));
    }

    method Inspect(p: Pid) returns (pr: Proc)
      requires Valid()
      ensures pr == View().procs[p]
    {
      pr := procs[p];
    }

    /** The receiving half of a rendezvous with a sender already off the queue. */
    method ReceiveFrom(cur: Pid, sender: Pid) returns (out: Outcome)
      requires Valid() && cur != sender
      modifies Repr()
      ensures Valid()
      ensures var st := old(View());
        var from := st.procs[sender];
        if from.isCall then
          var (table, landing) := Install(st.tables[cur], Capability(ReplyTo(sender), {}, None));
          && View() == Happened(WithTable(st, cur, table), sender, RequestTaken)
          && out == Some(Answer(Delivered, Some(from.msg), landing))
        else
          var (moved, landing) := if from.cap.Some? then Transfer(st, sender, from.cap.value, cur) else (st, None);
          && View() == Wake(moved, sender, Answer(Delivered, Some(0), None), Rendezvous)
          && out == Some(Answer(Delivered, Some(from.msg), landing))
    {
      hide Kernel.View, Kernel.Valid, Transfer, Install;
      var from := Inspect(sender);
      var landing := None;
      if from.isCall {
        landing := Place(cur, Capability(ReplyTo(sender), {}, None));
        Record(sender, RequestTaken);
        return Some(Answer(Delivered, Some(from.msg), landing));
      }
      if from.cap.Some? {
        landing := MoveCap(sender, from.cap.value, cur);
      }
      WakeWith(sender, Answer(Delivered, Some(0), None), Rendezvous);
      return Some(Answer(Delivered, Some(from.msg), landing));
    }

    method IpcRecv(cur: Pid, slot: nat) returns (out: Outcome)
      requires Valid() && Inv(View()) && View().procs[cur].run.Ready?
      modifies Repr()
      ensures Valid() && Inv(View())
      ensures (View(), out) == RecvStep(old(View()), cur, slot)
    {
      hide Kernel.View, Kernel.Valid, Inv, Transfer, EndpointAt, InTransit, Install;
      InvIsSound(View());
      RecvKeeps(View(), cur, slot);
      var id := Resolve(cur, slot, MayRecv);
      if id.None? {
        return Some(Answer(Failed, None, None));
      }
      PeersAreOthers(View(), cur, id.value, true);
      var sender := TakeWaiting(id.value, true);
      if sender.Some? {
        out := ReceiveFrom(cur, sender.value);
        return out;
      }
      var c := Counts(id.value);
      if c.senders == 0 {
        var landing := TakeReclaimLanding(cur);
        return Some(Answer(PeerDied, None, landing));
      }
      EnqueueWaiter(id.value, cur, false);
      Block(cur, ParkedInQueue);
      return None;
    }

    method IpcCall(cur: Pid, slot: nat, req: nat) returns (out: Outcome)
      requires Valid() && Inv(View()) && View().procs[cur].run.Ready?
      modifies Repr()
      ensures Valid() && Inv(View())
      ensures (View(), out) == CallStep(old(View()), cur, slot, req)
    {
      hide Kernel.View, Kernel.Valid, Inv, Transfer, EndpointAt, InTransit, Install;
      InvIsSound(View());
      CallKeeps(View(), cur, slot, req);
      var id := Resolve(cur, slot, MaySend);
      if id.None? {
        return Some(Answer(Failed, None, None));
      }
      PeersAreOthers(View(), cur, id.value, false);
      var server := TakeWaiting(id.value, false);
      if server.Some? {
        var landing := Place(server.value, Capability(ReplyTo(cur), {}, None));
        WakeWith(server.value, Answer(Delivered, Some(req), landing), Rendezvous);
        Block(cur, ParkedCalling);
        Record(cur, RequestTaken);
        return None;
      }
      var c := Counts(id.value);
      if c.receivers == 0 {
        return Some(Answer(PeerDied, None, None));
      }
      SetPending(cur, req, None, true);
      EnqueueWaiter(id.value, cur, true);
      Block(cur, ParkedCalling);
      return None;
    }

    method IpcReply(cur: Pid, slot: nat, msg: nat) returns (out: Outcome)
      requires Valid() && Inv(View()) && View().procs[cur].run.Ready?
      modifies Repr()
      ensures Valid() && Inv(View())
      ensures (View(), out) == ReplyStep(old(View()), cur, slot, msg)
    {
      hide Kernel.View, Kernel.Valid, Inv;
      ReplyKeeps(View(), cur, slot, msg);
      var cap := Look(cur, slot);
      if cap.None? || !cap.value.target.ReplyTo? || cap.value.target.caller >= MAX_PROCESSES {
        return Some(Answer(Failed, None, None));
      }
      var caller := Inspect(cap.value.target.caller);
      if !caller.run.Blocked? {
        return Some(Answer(Failed, None, None));
      }
      WakeWith(cap.value.target.caller, Answer(Delivered, Some(msg), None), Replied);
      var _ := Take(cur, slot);
      return Some(Answer(Delivered, None, None));
    }

    /** `cap_release`, less the frames and rings it returns to their own pools. */
    method CapRelease(cur: Pid, slot: nat) returns (ok: bool)
      requires Valid()
      modifies Repr()
      ensures Valid() && (View(), ok) == ReleaseStep(old(View()), cur, slot)
    {
      hide Kernel.View, Kernel.Valid, SendHome, Dropped;
      var cap := Look(cur, slot);
      if cap.None? {
        return false;
      }
      var action := OnRelease(cap.value);
      if action == Refuse {
        return false;
      }
      var _ := Take(cur, slot);
      match action {
        case DropEndpoint => NoteRemoved(cap.value, true);
        case ReclaimTo(o) =>
          if o.lender < MAX_PROCESSES {
            var lender := Inspect(o.lender);
            if !lender.run.Empty? {
              var _ := PlaceHome(o.lender, o.home, LentTo(cap.value, Origin(cur, o.home), o.lender));
            }
          }
        case _ =>
      }
      return true;
    }

    // ----- death -----

    method DequeueHead(id: Eid) returns (r: Option<nat>)
      requires Valid()
      modifies Repr()
      ensures Valid() && r == (if old(View()).eps[id].queue == [] then None else Some(old(View()).eps[id].queue[0]))
      ensures View() == if r.Some? then Popped(old(View()), id) else old(View())
    {
      hide Chain, Separate;
      r := waits.Dequeue(id);
      EpsChanged(id);
    }

    /** `wake_all_stranded`: empty one queue, waking each waiter with what was sent
        home to it. */
    method WakeAllStranded(id: Eid)
      requires Valid() && Sound(View()) && Separate(Queues(View().eps))
      modifies Repr()
      ensures Valid()
      ensures View() == After(old(View()), {}, Members(old(View()).eps[id].queue), Queues(old(View()).eps)[id := []])
    {
      hide Kernel.View, Kernel.Valid, After;
      ghost var v := View();
      ghost var q := v.eps[id].queue;
      ghost var k := 0;
      AfterNothing(v);
      assert Members(q[..0]) == {} && q[0..] == q && Queues(v.eps)[id := q] == Queues(v.eps);
      while true
        invariant Valid() && k <= |q|
        invariant View() == After(v, {}, Members(q[..k]), Queues(v.eps)[id := q[k..]])
        decreases |q| - k
      {
        AfterQueue(v, Members(q[..k]), Queues(v.eps)[id := q[k..]], id);
        var woken := DequeueHead(id);
        if woken.None? {
          break;
        }
        var c := woken.value;
        AfterPop(v, Members(q[..k]), Queues(v.eps)[id := q[k..]], id);
        NotYetWoken(v, id, k);
        AfterWaiter(v, Members(q[..k]), Queues(v.eps)[id := q[k + 1..]], c);
        var landing := TakeReclaimLanding(c);
        WakeWith(c, Answer(PeerDied, Some(0), landing), Bereaved);
        k := k + 1;
      }
      assert q[..k] == q;
    }

    method SetReclaimLanding(p: Pid, landing: nat)
      requires Valid()
      modifies Repr()
      ensures Valid() && View() == old(View()).(procs := old(View()).procs[p :=
        old(View()).procs[p].(landing := if old(View()).procs[p].landing.None? then Some(landing) else old(View()).procs[p].landing)])
    {
      var pr := procs[p];
      SetProc(p, if pr.landing.None? then pr.(landing := Some(landing)) else pr);
    }

    method ReclaimCap(p: Pid, slot: nat)
      requires Valid() && slot < MAX_CAPS
      modifies Repr()
      ensures Valid() && View() == ReclaimOne(old(View()), p, slot)
    {
      hide Kernel.View, Kernel.Valid, SendHome;
      var cap := Look(p, slot);
      if cap.None? {
        return;
      }
      var target := ReclaimTarget(cap.value, p);
      if target.None? {
        return;
      }
      var lender := target.value.0.lender;
      if lender >= MAX_PROCESSES || lender == p {
        return;
      }
      var pr := Inspect(lender);
      if pr.run.Empty? {
        return;
      }
      RefusedHome(View().tables[lender], target.value.0.home, target.value.1);
      var landing := PlaceHome(lender, target.value.0.home, target.value.1);
      if landing.Some? {
        SetReclaimLanding(lender, landing.value);
      } else {
        assert View().tables == old(View()).tables;
      }
    }

    /** `reclaim_lent_caps`. */
    method ReclaimLentCaps(p: Pid)
      requires Valid()
      modifies Repr()
      ensures Valid() && View() == ReclaimFrom(old(View()), p, 0)
    {
      hide Kernel.View, Kernel.Valid, ReclaimOne;
      for s := 0 to MAX_CAPS
        invariant Valid() && ReclaimFrom(View(), p, s) == ReclaimFrom(old(View()), p, 0)
      {
        ReclaimCap(p, s);
      }
    }

    /** One unanswered reply capability of the dying process. */
    method ReapCaller(p: Pid, s: nat, caller: nat, ghost v: State)
      requires Valid() && s < MAX_CAPS && ReplyIn(v.tables[p], s, caller)
      requires View() == After(v, RepliedBelow(v, p, s), {}, Queues(v.eps))
      modifies Repr()
      ensures Valid() && View() == After(v, RepliedBelow(v, p, s + 1), {}, Queues(v.eps))
    {
      hide Kernel.View, Kernel.Valid, After, RepliedBelow;
      RepliedMore(v, p, s);
      if caller < MAX_PROCESSES {
        var pr := Inspect(caller);
        AfterProc(v, RepliedBelow(v, p, s), {}, Queues(v.eps), caller);
        if pr.run.Blocked? {
          AfterReply(v, RepliedBelow(v, p, s), {}, Queues(v.eps), caller);
          var _ := TakeReclaimLanding(caller);
          WakeWith(caller, Answer(PeerDied, Some(0), None), Bereaved);
        } else {
          AlreadyCounted(v, p, s, caller);
        }
      }
    }

    /** The first loop of `reap_dying`: wake the callers owed a reply, tally the
        endpoint capabilities. */
    method ReapReplies(p: Pid) returns (dyingSenders: seq<nat>, dyingReceivers: seq<nat>)
      requires Valid() && Inv(View()) && View().procs[p].run.Ready?
      modifies Repr()
      ensures Valid() && |dyingSenders| == |dyingReceivers| == MAX_ENDPOINTS
      ensures View() == After(old(View()), RepliedBelow(old(View()), p, MAX_CAPS), {}, Queues(old(View()).eps))
      ensures forall id: Eid :: dyingSenders[id] == Tally(old(View()).tables[p], id, MaySend)
                             && dyingReceivers[id] == Tally(old(View()).tables[p], id, MayRecv)
    {
      hide Kernel.View, Kernel.Valid, After, Inv, RepliedBelow, TallyBelow, Tally;
      ghost var v := View();
      ghost var t := v.tables[p];
      dyingSenders, dyingReceivers := seq(MAX_ENDPOINTS, _ => 0), seq(MAX_ENDPOINTS, _ => 0);
      AfterNothing(v);
      NothingBelow(v, p);
      for s := 0 to MAX_CAPS
        invariant Valid() && |dyingSenders| == |dyingReceivers| == MAX_ENDPOINTS
        invariant View() == After(v, RepliedBelow(v, p, s), {}, Queues(v.eps))
        invariant forall id: Eid :: dyingSenders[id] == |TallyBelow(t, id, MaySend, s)|
                                 && dyingReceivers[id] == |TallyBelow(t, id, MayRecv, s)|
      {
        AfterTables(v, RepliedBelow(v, p, s), {}, Queues(v.eps));
        TalliesMore(t, s);
        var held := Look(p, s);
        if held.None? || !held.value.target.ReplyTo? {
          RepliedMore(v, p, s);
        }
        if held.Some? {
          match held.value.target {
            case ReplyTo(caller) =>
              ReapCaller(p, s, caller, v);
            case EndpointCap(id) =>
              if id < MAX_ENDPOINTS {
                if MaySend in held.value.rights {
                  dyingSenders := dyingSenders[id := dyingSenders[id] + 1];
                }
                if MayRecv in held.value.rights {
                  dyingReceivers := dyingReceivers[id := dyingReceivers[id] + 1];
                }
              }
            case _ =>
          }
        }
      }
      TalliesAll(t);
    }

    /** `reap_dying`. */
    method ReapDying(p: Pid)
      requires Valid() && Inv(View()) && View().procs[p].run.Ready?
      modifies Repr()
      ensures Valid() && View() == Reaped(old(View()), p)
    {
      hide Kernel.View, Kernel.Valid, After, Inv, RepliedBelow, BereftBelow, Tally, Reaped, QueuesBelow;
      ghost var v := View();
      ghost var replied := RepliedBelow(v, p, MAX_CAPS);
      NothingBelow(v, p);
      var dyingSenders, dyingReceivers := ReapReplies(p);
      for id := 0 to MAX_ENDPOINTS
        invariant Valid() && View() == After(v, replied, BereftBelow(v, p, id), QueuesBelow(v, p, id))
      {
        ReapEndpoint(p, id, dyingSenders[id], dyingReceivers[id], v);
      }
      ReapedAtTheEnd(v, p);
    }

    /** One endpoint of the second loop: wake its queue if this death strands it. */
    method ReapEndpoint(p: Pid, id: Eid, dyingSenders: nat, dyingReceivers: nat, ghost v: State)
      requires Valid() && Inv(v) && v.procs[p].run.Ready?
      requires View() == After(v, RepliedBelow(v, p, MAX_CAPS), BereftBelow(v, p, id), QueuesBelow(v, p, id))
      requires dyingSenders == Tally(v.tables[p], id, MaySend) && dyingReceivers == Tally(v.tables[p], id, MayRecv)
      modifies Repr()
      ensures Valid()
      ensures View() == After(v, RepliedBelow(v, p, MAX_CAPS), BereftBelow(v, p, id + 1), QueuesBelow(v, p, id + 1))
    {
      hide Kernel.View, Kernel.Valid, After, Inv, RepliedBelow, BereftBelow, Tally, QueuesBelow;
      ghost var replied, bereft, queues := RepliedBelow(v, p, MAX_CAPS), BereftBelow(v, p, id), QueuesBelow(v, p, id);
      InvIsSound(v);
      AfterTables(v, replied, bereft, queues);
      StrandedMore(v, p, id);
      var c := Counts(id);
      if c.inUse && Strands(Endpoint(c.inUse, [], false, c.senders, c.receivers), dyingSenders, dyingReceivers) {
        QueueIsUntouched(v, p, id);
        AfterIsQueued(v, p, replied, bereft, id);
        WakeAllStranded(id);
        AfterAfter(v, replied, bereft, queues, Members(v.eps[id].queue), queues[id := []]);
      }
    }

    /** `clear_origins_naming`: every table but the dying one. */
    method ClearOriginsNaming(p: Pid)
      requires Valid()
      modifies Repr()
      ensures Valid() && View() == ClaimsDropped(old(View()), p)
    {
      for q := 0 to MAX_PROCESSES
        invariant Valid() && View() == old(View()).(tables := View().tables)
        invariant forall i: Pid :: i != p && i < q ==> View().tables[i] == ClaimsCleared(old(View()).tables[i], p)
        invariant forall i: Pid :: i == p || i >= q ==> View().tables[i] == old(View()).tables[i]
      {
        ClearOneTable(p, q);
      }
      assert View().tables == ClaimsDropped(old(View()), p).tables;
    }

    method ClearOneTable(p: Pid, q: Pid)
      requires Valid()
      modifies Repr()
      ensures Valid() && View() == if q == p then old(View()) else WithTable(old(View()), q, ClaimsCleared(old(View()).tables[q], p))
    {
      if q != p {
        var _ := tables[q].ClearOrigin(p);
        TablesChanged(q);
      }
    }

    /** The drain of `teardown`: every capability leaves for good. */
    method DrainTable(p: Pid)
      requires Valid() && IpcSafety.Counts(View())
      modifies Repr()
      ensures Valid() && View().tables[p] == Emptied(old(View()).tables[p], MAX_CAPS)
      ensures View() == old(View()).(tables := old(View()).tables[p := View().tables[p]],
                                     eps := EpsBelow(old(View()).eps, old(View()).tables[p], MAX_CAPS))
    {
      hide Kernel.View, Kernel.Valid, EpsBelow, Emptied, CountsAgree, NoneDangle, Dropped;
      ghost var v := View();
      ghost var t := v.tables[p];
      DrainStart(v, p);
      for s := 0 to MAX_CAPS
        invariant Valid()
        invariant View() == v.(tables := v.tables[p := Emptied(t, s)], eps := EpsBelow(v.eps, t, s))
      {
        DrainStep(v.tables, v.eps, p, s);
        EmptiedMore(t, s);
        var cap := Take(p, s);
        if cap.Some? {
          NoteRemoved(cap.value, true);
        }
        assert View().tables == v.tables[p := Emptied(t, s + 1)];
      }
    }

    /** `teardown`, and the process-table slot emptied. */
    method Bury(p: Pid)
      requires Valid() && IpcSafety.Counts(View()) && !Queued(View().eps, p)
      modifies Repr()
      ensures Valid() && View() == Buried(old(View()), p)
    {
      hide Kernel.View, Kernel.Valid, EpsBelow, Emptied, CountsAgree, NoneDangle;
      ghost var v := View();
      DrainTable(p);
      Vacate(p);
      BuriedAtTheEnd(v, p);
    }

    method Vacate(p: Pid)
      requires Valid()
      modifies Repr()
      ensures Valid() && View() == Happened(old(View()).(tables := old(View()).tables[p := NoCaps()], procs := old(View()).procs[p := NoProc()]), p, Exited)
    {
      tables[p].Clear();
      TablesChanged(p);
      procs[p] := NoProc();
      Record(p, Exited);
    }

    /** `on_exit`, up to the choice of the next process. */
    method OnExit(p: Pid)
      requires Valid() && Inv(View()) && View().procs[p].run.Ready?
      modifies Repr()
      ensures Valid() && Inv(View()) && View() == Die(old(View()), p)
    {
      hide Kernel.View, Kernel.Valid, Inv, ReclaimFrom, Reaped, ClaimsDropped, Buried;
      DieKeeps(View(), p);
      ReclaimKeeps(View(), p, 0);
      ReclaimLentCaps(p);
      BeforeBurial(View(), p);
      ReapDying(p);
      ClearOriginsNaming(p);
      Bury(p);
    }
  }

  lemma RefusedHome(t: Table, home: nat, cap: Capability)
    ensures SendHome(t, home, cap).1.None? ==> SendHome(t, home, cap).0 == t
  {
  }

  lemma RefusedInstall(t: Table, cap: Capability, prior: Option<Origin>, dest: nat)
    ensures InstallHome(t, cap, prior, dest).1.None? ==> InstallHome(t, cap, prior, dest).0 == t
  {
  }

  /** Whoever waits is not the process running, and the running one is in no queue. */
  lemma PeersAreOthers(st: State, cur: Pid, id: Eid, wantSenders: bool)
    requires Inv(st) && st.procs[cur].run.Ready?
    ensures !Queued(st.eps, cur)
    ensures Peer(st, id, wantSenders).Some? ==>
      Peer(st, id, wantSenders).value < MAX_PROCESSES && Peer(st, id, wantSenders).value != cur
  {
    NotQueued(st, cur);
    if Peer(st, id, wantSenders).Some? { assert st.eps[id].queue[0] in st.eps[id].queue; }
  }
}
