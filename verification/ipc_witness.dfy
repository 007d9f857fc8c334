/** Runs from the empty machine that reach each of the failures the IPC results
    exclude: a hand-over into a full table, a first loan into a full table, and a loan
    that takes the slot kept for another. */
module IpcWitnesses {
  import opened Prelude
  import opened Capabilities
  import opened WaitQueues
  import opened IpcModel
  import opened IpcSafety
  import opened IpcSteps
  import opened IpcRuns
  import opened IpcLending
  import opened IpcLoans
  import opened IpcAnswers

  // ----- two processes with a channel both ways -----

  function BothWays(): Capability { Capability(EndpointCap(0), {MaySend, MayRecv}, None) }

  predicate Channel(st: State) {
    && st.procs[0].run.Ready? && st.procs[1].run.Ready?
    && st.tables[0].caps[1] == st.tables[1].caps[1] == Some(BothWays())
    && (forall p: Pid :: p >= 2 ==> st.procs[p].run.Empty?)
    && st.eps[0].inUse && st.eps[0].queue == [] && st.eps[0].senders == st.eps[0].receivers == 2
  }

  function Open(): seq<Op> {
    Launch() + [OpMint(0, EndpointCap(0), {MaySend, MayRecv})] + [OpMint(1, EndpointCap(0), {MaySend, MayRecv})]
  }

  lemma Opened()
    ensures Channel(Run(Open())) && Run(Open()).tables[0] == Run(Open()).tables[1] == Put(FreshTable(), 1, BothWays())
  {
    hide Inv, Run;
    AfterLaunch();
    assert FirstFree(FreshTable()) == Some(1);
    var one := OpMint(0, EndpointCap(0), {MaySend, MayRecv});
    RunStep(Launch(), one);
    RunStep(Launch() + [one], OpMint(1, EndpointCap(0), {MaySend, MayRecv}));
    assert Run(Launch() + [one]).tables[1] == FreshTable();
  }

  predicate Plain(target: CapObject) {
    !target.EndpointCap? && !target.ReplyTo?
  }

  lemma Minted(ops: seq<Op>, p: Pid, target: CapObject, n: nat)
    requires Channel(Run(ops)) && p < 2 && Plain(target) && FirstFree(Run(ops).tables[p]) == Some(n)
    ensures var st, st' := Run(ops), Run(ops + [OpMint(p, target, {})]);
      && Channel(st') && st'.tables == st.tables[p := Put(st.tables[p], n, Capability(target, {}, None))]
      && st'.history == st.history
  {
    hide Inv, Run, FirstFree;
    RunStep(ops, OpMint(p, target, {}));
    InvIsSound(Run(ops));
  }

  function Handing(ops: seq<Op>, p: Pid, q: Pid, s: nat): seq<Op> {
    ops + [OpRecv(q, 1)] + [OpSend(p, 1, 0, Some(s))]
  }

  lemma ReceiverParked(ops: seq<Op>, q: Pid)
    requires Channel(Run(ops)) && q < 2
    ensures var st, st' := Run(ops), Run(ops + [OpRecv(q, 1)]);
      && st' == Park(Enqueued(st, 0, q, false), q, ParkedInQueue)
  {
    hide Inv, Run;
    RunStep(ops, OpRecv(q, 1));
    InvIsSound(Run(ops));
  }

  /** What a transfer over the channel leaves of it. */
  lemma PlainMove(st: State, p: Pid, s: nat, q: Pid)
    requires p != q && s < MAX_CAPS && s != 1
    requires st.tables[p].caps[1].Some? && st.tables[q].caps[1].Some?
    requires var held := st.tables[p].caps[s]; held.Some? && Plain(held.value.target)
    ensures var st' := Transfer(st, p, s, q).0;
      && st'.procs == st.procs && st'.eps == st.eps
      && st'.tables[p].caps[1] == st.tables[p].caps[1] && st'.tables[q].caps[1] == st.tables[q].caps[1]
  {
    hide FirstFree;
  }

  lemma Handed(ops: seq<Op>, p: Pid, q: Pid, s: nat)
    requires Channel(Run(ops)) && p < 2 && q < 2 && p != q && s < MAX_CAPS && s != 1
    requires var held := Run(ops).tables[p].caps[s]; held.Some? && Plain(held.value.target)
    ensures Channel(Run(Handing(ops, p, q, s)))
    ensures Run(Handing(ops, p, q, s)).tables == Transfer(Run(ops), p, s, q).0.tables
  {
    hide Inv, Run, Transfer;
    ReceiverParked(ops, q);
    var waiting := ops + [OpRecv(q, 1)];
    InvIsSound(Run(waiting));
    var taken := Popped(Run(waiting), 0);
    PlainMove(taken, p, s, q);
    TransferIgnoresQueues(Run(ops), taken, p, s, q);
    RunStep(waiting, OpSend(p, 1, 0, Some(s)));
  }

  // ----- a full table -----

  predicate Filled(t: Table, n: nat) {
    n <= MAX_CAPS && forall i :: 0 <= i < MAX_CAPS ==>
      !t.reserved[i] && (t.caps[i].Some? <==> i < n) && (i < n ==> t.caps[i].value.origin.None?)
  }

  function Packing(ops: seq<Op>, p: Pid, n: nat): seq<Op> {
    if n == 0 then ops else Packing(ops, p, n - 1) + [OpMint(p, CpuTime(0), {})]
  }

  lemma {:induction false} Packed(ops: seq<Op>, p: Pid, u: nat, n: nat)
    requires Channel(Run(ops)) && p < 2 && Filled(Run(ops).tables[p], u) && u + n <= MAX_CAPS
    ensures var st, st' := Run(ops), Run(Packing(ops, p, n));
      && Channel(st') && Filled(st'.tables[p], u + n) && st'.tables == st.tables[p := st'.tables[p]]
  {
    hide Inv, Run, Channel, FirstFree;
    if n > 0 {
      Packed(ops, p, u, n - 1);
      var before := Packing(ops, p, n - 1);
      FirstFreeIs(Run(before).tables[p], 0, u + n - 1);
      Minted(before, p, CpuTime(0), u + n - 1);
    }
  }

  function Full(): seq<Op> { Packing(Open(), 1, 14) }

  lemma OpenIsFilled()
    ensures Filled(Put(FreshTable(), 1, BothWays()), 2)
  {
  }

  lemma AfterFull()
    ensures var st := Run(Full());
      && Channel(st) && Filled(st.tables[1], MAX_CAPS) && !HasRoom(st.tables[1]) && st.tables[0] == Put(FreshTable(), 1, BothWays())
  {
    hide Run, Channel, Filled, FreshTable;
    Opened();
    OpenIsFilled();
    Packed(Open(), 1, 2, 14);
    FilledHasNoRoom(Run(Full()).tables[1]);
  }

  lemma FilledHasNoRoom(t: Table)
    requires Filled(t, MAX_CAPS)
    ensures !HasRoom(t)
  {
  }

  // ----- calls nobody can answer -----

  lemma CallerParked(ops: seq<Op>)
    requires Channel(Run(ops))
    ensures var st, st' := Run(ops), Run(ops + [OpCall(0, 1, 9)]);
      && st' == Park(Enqueued(Pending(st, 0, 9, None, true), 0, 0, true), 0, ParkedCalling)
  {
    hide Inv, Run;
    RunStep(ops, OpCall(0, 1, 9));
    InvIsSound(Run(ops));
  }

  /** A queued caller taken by a server with a full table: the caller waits on, and
      no capability names it. */
  lemma RecvCanStarve()
    ensures var before := Full() + [OpCall(0, 1, 9)];
      var st, st' := Run(before), Run(before + [OpRecv(1, 1)]);
      && Enabled(st, OpRecv(1, 1)) && StarvedHandover(st, OpRecv(1, 1))
      && Awaits(st', 0) && st'.procs[0].run.Blocked? && !ReplyHeld(st'.tables, 0)
  {
    hide Inv, Run, HasRoom, Filled, PhaseOf, Packing, FreshTable;
    AfterFull();
    var before := Full() + [OpCall(0, 1, 9)];
    CallerParked(Full());
    var st := Run(before);
    InvIsSound(st);
    RunStep(before, OpRecv(1, 1));
    RecvIsAnswerable(st, 1, 1, 0);
  }

  /** The same the other way round: the server waits first, and the call finds it. */
  lemma CallCanStarve()
    ensures var before := Full() + [OpRecv(1, 1)];
      var st, st' := Run(before), Run(before + [OpCall(0, 1, 9)]);
      && Enabled(st, OpCall(0, 1, 9)) && StarvedHandover(st, OpCall(0, 1, 9))
      && Awaits(st', 0) && st'.procs[0].run.Blocked? && !ReplyHeld(st'.tables, 0)
  {
    hide Inv, Run, HasRoom, Filled, PhaseOf;
    AfterFull();
    ReceiverParked(Full(), 1);
    var before := Full() + [OpRecv(1, 1)];
    InvIsSound(Run(before));
    RunStep(before, OpCall(0, 1, 9));
    CallIsAnswerable(Run(before), 0, 1, 9, 0);
  }

  // ----- loans -----

  function Refused(): seq<Op> {
    Handing(Full() + [OpMint(0, BlockRange(0, 0, 1), {})], 0, 1, 2)
  }

  lemma AfterRefused()
    ensures var st := Run(Refused());
      var base := Put(FreshTable(), 1, BothWays());
      && Channel(st) && Filled(st.tables[1], MAX_CAPS)
      && st.tables[0] == Put(Slots(base.caps, base.reserved[2 := true]), 3, Capability(BlockRange(0, 0, 1), {}, None))
  {
    hide Inv, Run, FirstFree, Channel, Filled;
    AfterFull();
    var base := Put(FreshTable(), 1, BothWays());
    var loan := Full() + [OpMint(0, BlockRange(0, 0, 1), {})];
    FirstFreeIs(base, 0, 2);
    Minted(Full(), 0, BlockRange(0, 0, 1), 2);
    Handed(loan, 0, 1, 2);
    var without := LentFrom(Run(loan).tables[0], 2);
    assert without == Slots(base.caps, base.reserved[2 := true]);
    FirstFreeIs(without, 0, 3);
  }

  /** A first loan of a returning kind into a full table: the lender keeps the
      capability, in another slot, and the reservation is for nothing that is out. */
  lemma LoanCanStrand()
    ensures var st := Run(Refused());
      && Reserved(st.tables, Origin(0, 2)) && !Awaited(st.tables, Origin(0, 2), {})
      && st.tables[0].caps[2].None? && st.tables[0].caps[3] == Some(Capability(BlockRange(0, 0, 1), {}, None))
  {
    hide Inv, Run;
    AfterRefused();
    var st := Run(Refused());
    forall a: Place ensures !Claims(st.tables, a, Origin(0, 2)) {
      if 2 <= a.p < MAX_PROCESSES { EmptyHoldsNothing(st, a.p); }
    }
  }

  lemma EmptyHoldsNothing(st: State, p: Pid)
    requires Inv(st) && st.procs[p].run.Empty?
    ensures st.tables[p] == NoCaps()
  {
    hide Counts, Waiters, Replies, AllLawful;
  }

  // ----- a loan that takes the slot kept for another -----

  function Lent(): seq<Op> {
    Handing(Handing(Open() + [OpMint(0, Frame(0), {})], 0, 1, 2) + [OpMint(0, BlockRange(0, 0, 1), {})], 0, 1, 2)
  }

  /** A frame lent from slot 2, and then a block range lent from the same slot. */
  lemma AfterLent()
    ensures var st := Run(Lent());
      var base := Put(FreshTable(), 1, BothWays());
      && Channel(st)
      && st.tables[0] == Slots(base.caps, base.reserved[2 := true])
      && st.tables[1] == Put(Put(base, 2, Capability(Frame(0), {}, Some(Origin(0, 2)))),
                             3, Capability(BlockRange(0, 0, 1), {}, Some(Origin(0, 2))))
  {
    hide Inv, Run, HasRoom, FirstFree;
    Opened();
    var base := Put(FreshTable(), 1, BothWays());
    FirstFreeIs(base, 0, 2);
    Minted(Open(), 0, Frame(0), 2);
    var one := Open() + [OpMint(0, Frame(0), {})];
    Handed(one, 0, 1, 2);
    var two := Handing(one, 0, 1, 2);
    assert Run(two).tables[0] == base;
    Minted(two, 0, BlockRange(0, 0, 1), 2);
    var three := two + [OpMint(0, BlockRange(0, 0, 1), {})];
    FirstFreeIs(Run(three).tables[1], 0, 3);
    Handed(three, 0, 1, 2);
  }

  /** Both are handed back, the frame first: it lands in the slot kept for the block
      range, which ends up in another. */
  lemma StrayLoanHappens()
    ensures var frameBack := Handing(Lent(), 1, 0, 2);
      var st := Run(Handing(frameBack, 1, 0, 3));
      && st.tables[0].caps[2] == Some(Capability(Frame(0), {}, None))
      && st.tables[0].caps[3] == Some(Capability(BlockRange(0, 0, 1), {}, None))
      && !Reserved(st.tables, Origin(0, 2))
  {
    hide Inv, Run, HasRoom, FirstFree;
    AfterLent();
    Handed(Lent(), 1, 0, 2);
    var frameBack := Handing(Lent(), 1, 0, 2);
    FirstFreeIs(Run(frameBack).tables[0], 0, 3);
    Handed(frameBack, 1, 0, 3);
  }
}
