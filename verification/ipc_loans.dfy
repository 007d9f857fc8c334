/** Loans over whole runs: through re-lends, hand-backs, releases and deaths a loaned
    capability is always exactly one capability somewhere, and ends in the slot it
    left. */
module IpcLoans {
  import opened Prelude
  import opened Capabilities
  import opened WaitQueues
  import opened IpcModel
  import opened IpcSafety
  import opened IpcSteps
  import opened IpcDeath
  import opened IpcRuns
  import opened IpcLending

  // ----- death -----

  ghost function Spent(p: nat, n: nat): set<Place> {
    set k: nat | k < n :: Place(p, k)
  }

  lemma SpentGrows(p: nat, n: nat)
    ensures Spent(p, n + 1) == Spent(p, n) + {Place(p, n)}
    ensures forall k: nat :: Place(p, k) in Spent(p, n) <==> k < n
  {
    forall a ensures a in Spent(p, n + 1) <==> a in Spent(p, n) + {Place(p, n)} {
    }
  }

  lemma SpendNothing(tables: seq<Table>, a: Place, but: set<Place>)
    requires LendsBut(tables, but) && NoLoan(CapAt(tables, a))
    ensures LendsBut(tables, but + {a})
  {
    hide CapAt, Reserved;
    forall o ensures !Claims(tables, a, o) { NoLoanNoClaim(tables, a, o); }
    forall o | Reserved(tables, o) ensures Awaited(tables, o, but + {a}) {
      assert Awaited(tables, o, but);
      var c :| Claims(tables, c, o) && c !in but;
    }
  }

  /** What was copied home is owned outright in its slot; nothing else moved. */
  ghost predicate Returned(before: seq<Table>, after: seq<Table>, a: Place, o: Origin) {
    && |after| == |before| && o.lender < |before| && o.home < MAX_CAPS && CapAt(before, a).Some?
    && after == before[o.lender := Landed(before[o.lender], o.home, CapAt(before, a).value.(origin := None))]
  }

  lemma ReclaimOneReturns(st: State, p: Pid, slot: nat, but: set<Place>)
    requires Inv(st) && slot < MAX_CAPS && LendsBut(st.tables, but) && Place(p, slot) !in but
    ensures var st' := ReclaimOne(st, p, slot);
            if NoLoan(st.tables[p].caps[slot]) then st' == st
            else
              var o := st.tables[p].caps[slot].value.origin.value;
              o.lender != p && Reserved(st.tables, o) && st.tables[o.lender].caps[o.home].None?
              && Returned(st.tables, st'.tables, Place(p, slot), o)
  {
    var a := Place(p, slot);
    if !NoLoan(st.tables[p].caps[slot]) {
      var o := st.tables[p].caps[slot].value.origin.value;
      assert Claims(st.tables, a, o);
      assert Reserved(st.tables, o);
      assert Tidy(st.tables[o.lender]);
    }
  }

  lemma ReclaimOneLends(st: State, p: Pid, slot: nat)
    requires Inv(st) && st.procs[p].run.Ready? && slot < MAX_CAPS && LendsBut(st.tables, Spent(p, slot))
    ensures LendsBut(ReclaimOne(st, p, slot).tables, Spent(p, slot + 1))
  {
    hide Inv, ReclaimOne, LendsBut;
    var a := Place(p, slot);
    SpentGrows(p, slot);
    ReclaimOneReturns(st, p, slot, Spent(p, slot));
    if NoLoan(st.tables[p].caps[slot]) {
      SpendNothing(st.tables, a, Spent(p, slot));
    } else {
      ReturnedLends(st.tables, ReclaimOne(st, p, slot).tables, a, st.tables[p].caps[slot].value.origin.value, Spent(p, slot));
    }
  }

  lemma ReturnedLends(before: seq<Table>, after: seq<Table>, a: Place, o: Origin, but: set<Place>)
    requires LendsBut(before, but) && Claims(before, a, o) && a !in but && o.lender != a.p
    requires Reserved(before, o) && before[o.lender].caps[o.home].None? && Returned(before, after, a, o)
    ensures LendsBut(after, but + {a})
  {
    hide LendsBut;
    forall c: Place | c != a ensures SameLoan(CapAt(before, c), CapAt(after, c)) {
    }
    LendsEnded(before, after, a, o, but);
  }

  lemma {:induction false} ReclaimLends(st: State, p: Pid, slot: nat)
    requires Inv(st) && st.procs[p].run.Ready? && slot <= MAX_CAPS && LendsBut(st.tables, Spent(p, slot))
    ensures LendsBut(ReclaimFrom(st, p, slot).tables, Spent(p, MAX_CAPS))
    decreases MAX_CAPS - slot
  {
    hide Inv, ReclaimOne, LendsBut;
    if slot < MAX_CAPS {
      ReclaimOneKeeps(st, p, slot);
      ReclaimOneLends(st, p, slot);
      ReclaimLends(ReclaimOne(st, p, slot), p, slot + 1);
    }
  }

  /** Burying a process whose borrowings are all home takes its own claims with it. */
  lemma EndedLends(before: seq<Table>, after: seq<Table>, p: nat)
    requires LendsBut(before, Spent(p, MAX_CAPS)) && |after| == |before| && p < |before|
    requires after[p] == NoCaps()
    requires forall q :: 0 <= q < |before| && q != p ==> after[q] == ClaimsCleared(before[q], p)
    ensures Lends(after)
  {
    SpentGrows(p, MAX_CAPS);
    forall a, o ensures Claims(after, a, o) <==> a.p != p && o.lender != p && Claims(before, a, o) {
    }
    forall a: Place | a.p != p && CapAt(after, a).Some? ensures CapAt(before, a).Some? && CapAt(after, a).value.target == CapAt(before, a).value.target {
    }
    forall o ensures Reserved(after, o) <==> o.lender != p && Reserved(before, o) {
    }
    SurvivingLoans(before, after, p);
  }

  lemma SurvivingLoans(before: seq<Table>, after: seq<Table>, p: nat)
    requires LendsBut(before, Spent(p, MAX_CAPS))
    requires forall a, o :: Claims(after, a, o) <==> a.p != p && o.lender != p && Claims(before, a, o)
    requires forall a: Place :: a.p != p && CapAt(after, a).Some? ==>
      CapAt(before, a).Some? && CapAt(after, a).value.target == CapAt(before, a).value.target
    requires forall o :: Reserved(after, o) <==> o.lender != p && Reserved(before, o)
    ensures Lends(after)
  {
    hide Reserved;
    var but := Spent(p, MAX_CAPS);
    forall a, o | Claims(before, a, o) && a.p == p ensures a in but {
      SpentGrows(p, MAX_CAPS);
      assert a == Place(p, a.s);
    }
    forall o | Reserved(after, o) ensures Awaited(after, o, {}) {
      assert Awaited(before, o, but);
      var c :| Claims(before, c, o) && c !in but;
      assert Claims(after, c, o);
    }
    forall a, o | Claims(after, a, o) ensures a !in but {
      if a in but { SpentGrows(p, MAX_CAPS); }
    }
  }

  lemma NothingSpent(p: nat)
    ensures Spent(p, 0) == {}
  {
  }

  lemma EndedTablesAre(st: State, p: Pid)
    ensures Ended(st, p).tables[p] == NoCaps()
    ensures forall q: Pid :: q != p ==> Ended(st, p).tables[q] == ClaimsCleared(st.tables[q], p)
  {
    hide ReapedProc, Drained, ClaimsCleared;
  }

  lemma DieLends(st: State, p: Pid)
    requires Inv(st) && Lends(st.tables) && st.procs[p].run.Ready?
    ensures Lends(Die(st, p).tables)
  {
    hide Inv, LendsBut, ReclaimFrom, ClaimsCleared, Spent;
    assert Spent(p, 0) == {} by { NothingSpent(p); }
    ReclaimLends(st, p, 0);
    var mid := ReclaimFrom(st, p, 0);
    EndedTablesAre(mid, p);
    EndedLends(mid.tables, Die(st, p).tables, p);
  }

  /** Filled slots stay as they were. */
  ghost predicate OnlyFills(before: seq<Table>, after: seq<Table>) {
    |after| == |before| && forall a :: CapAt(before, a).Some? ==> CapAt(after, a) == CapAt(before, a)
  }

  lemma ReclaimOneFills(st: State, p: Pid, slot: nat)
    requires slot < MAX_CAPS
    ensures OnlyFills(st.tables, ReclaimOne(st, p, slot).tables)
  {
  }

  lemma {:induction false} ReclaimFills(st: State, p: Pid, slot: nat)
    requires slot <= MAX_CAPS
    ensures OnlyFills(st.tables, ReclaimFrom(st, p, slot).tables)
    decreases MAX_CAPS - slot
  {
    hide ReclaimOne, CapAt;
    if slot < MAX_CAPS {
      ReclaimOneFills(st, p, slot);
      ReclaimFills(ReclaimOne(st, p, slot), p, slot + 1);
    }
  }

  lemma {:induction false} ReclaimBringsHome(st: State, p: Pid, slot: nat, k: nat, o: Origin)
    requires Inv(st) && st.procs[p].run.Ready? && slot <= k < MAX_CAPS && LendsBut(st.tables, Spent(p, slot))
    requires Claims(st.tables, Place(p, k), o)
    ensures o.lender != p && CapAt(ReclaimFrom(st, p, slot).tables, Place(o.lender, o.home))
                          == Some(st.tables[p].caps[k].value.(origin := None))
    decreases MAX_CAPS - slot
  {
    hide Inv, ReclaimOne, LendsBut;
    SpentGrows(p, slot);
    ReclaimOneKeeps(st, p, slot);
    var st' := ReclaimOne(st, p, slot);
    if slot == k {
      ReclaimOneReturns(st, p, slot, Spent(p, slot));
      ReclaimFills(st', p, slot + 1);
    } else {
      ReclaimOneLends(st, p, slot);
      ReclaimBringsHome(st', p, slot + 1, k, o);
    }
  }

  /** A dying borrower's loans are in the slots they left, owned outright, whatever
      else dies with it. */
  lemma DeathBringsHome(st: State, p: Pid, k: nat, o: Origin)
    requires Inv(st) && Lends(st.tables) && st.procs[p].run.Ready? && Claims(st.tables, Place(p, k), o)
    ensures o.lender != p && CapAt(Die(st, p).tables, Place(o.lender, o.home)) == Some(st.tables[p].caps[k].value.(origin := None))
  {
    hide Inv, LendsBut, ReclaimFrom, ReapedProc, Drained;
    assert Spent(p, 0) == {};
    ReclaimBringsHome(st, p, 0, k, o);
  }

  // ----- every operation -----

  /** What the caller of an operation must see to for the books to stay right: a first
      loan is of a kind that comes home exactly when there is room for it. */
  predicate LendsWell(st: State, op: Op)
    requires Sound(st)
  {
    match op
    case OpSend(p, slot, _, Some(c)) =>
      var at := EndpointAt(st, p, slot, MaySend);
      at.Some? && Peer(st, at.value, false).Some? ==>
        GoodLoan(Held(st.tables[p], c), st.tables[Peer(st, at.value, false).value])
    case OpRecv(p, slot) =>
      var at := EndpointAt(st, p, slot, MayRecv);
      at.Some? && Peer(st, at.value, true).Some? ==>
        var from := st.procs[Peer(st, at.value, true).value];
        !from.isCall && from.cap.Some? ==>
          GoodLoan(Held(st.tables[Peer(st, at.value, true).value], from.cap.value), st.tables[p])
    case OpSpawn(p, transfer, loads) => GoodGift(st, p, transfer, loads)
    case _ => true
  }

  /** The books stay right through a step if and only if that condition holds. */
  lemma StepLendsExactly(st: State, op: Op)
    requires Inv(st) && Lends(st.tables) && Enabled(st, op) && Sound(st)
    ensures Lends(Step(st, op).tables) <==> LendsWell(st, op)
  {
    hide Inv, Lends, Transfer, SpawnStep, ReleaseStep, Die, GoodGift, GoodLoan;
    match op {
      case OpCreate =>
      case OpBoot => BootLends(st);
      case OpMint(p, target, rights) => InstallLends(st.tables, p, Capability(target, rights, None));
      case OpSend(p, slot, msg, cap) => SendLends(st, p, slot, msg, cap);
      case OpRecv(p, slot) => RecvLends(st, p, slot);
      case OpCall(p, slot, req) => CallLends(st, p, slot, req);
      case OpReply(p, slot, msg) => ReplyLends(st, p, slot, msg);
      case OpSpawn(p, transfer, loads) => SpawnLendsExactly(st, p, transfer, loads);
      case OpRelease(p, slot) => ReleaseLends(st, p, slot);
      case OpDie(p) => DieLends(st, p);
    }
  }

  lemma BootLends(st: State)
    requires Inv(st) && Lends(st.tables)
    ensures Lends(Boot(st).tables)
  {
    hide Lends;
    if FreeProc(st.procs).Some? {
      var p := FreeProc(st.procs).value;
      TablesAreTidy(st, p);
      LendsAside(st.tables, Boot(st).tables, Place(p, 0));
    }
  }

  /** The two ends of a rendezvous are different processes, with tidy tables. */
  lemma EndsDiffer(st: State, cur: Pid, id: Eid, wantSenders: bool)
    requires Inv(st) && st.procs[cur].run.Ready? && Peer(st, id, wantSenders).Some?
    ensures var x := st.eps[id].queue[0];
            x < MAX_PROCESSES && x != cur && Tidy(st.tables[x]) && Tidy(st.tables[cur])
  {
    hide Inv;
    PopKeeps(st, id, wantSenders);
    StillFree(st, id, cur, st.eps[id].queue[0]);
    TablesAreTidy(st, cur);
    TablesAreTidy(st, st.eps[id].queue[0]);
  }

  lemma TransferIgnoresQueues(st: State, st2: State, src: Pid, slot: nat, dst: Pid)
    requires st2.tables == st.tables
    ensures Transfer(st2, src, slot, dst).0.tables == Transfer(st, src, slot, dst).0.tables
    ensures Transfer(st2, src, slot, dst).1 == Transfer(st, src, slot, dst).1
  {
  }

  lemma SendLends(st: State, cur: Pid, slot: nat, msg: nat, cap: Option<nat>)
    requires Inv(st) && Lends(st.tables) && st.procs[cur].run.Ready? && Sound(st)
    ensures Lends(SendStep(st, cur, slot, msg, cap).0.tables) <==> LendsWell(st, OpSend(cur, slot, msg, cap))
  {
    hide Inv, Lends, Transfer, GoodLoan, Tidy;
    var at := EndpointAt(st, cur, slot, MaySend);
    if at.Some? && Peer(st, at.value, false).Some? && cap.Some? {
      var x := st.eps[at.value].queue[0];
      EndsDiffer(st, cur, at.value, false);
      TransferLendsExactly(st, cur, cap.value, x);
      TransferIgnoresQueues(st, Popped(st, at.value), cur, cap.value, x);
    }
  }

  lemma RecvLends(st: State, cur: Pid, slot: nat)
    requires Inv(st) && Lends(st.tables) && st.procs[cur].run.Ready? && Sound(st)
    ensures Lends(RecvStep(st, cur, slot).0.tables) <==> LendsWell(st, OpRecv(cur, slot))
  {
    hide Inv, Lends, Transfer, GoodLoan, Tidy;
    var at := EndpointAt(st, cur, slot, MayRecv);
    if at.Some? && Peer(st, at.value, true).Some? {
      var x := st.eps[at.value].queue[0];
      EndsDiffer(st, cur, at.value, true);
      if st.procs[x].isCall {
        InstallLends(st.tables, cur, Capability(ReplyTo(x), {}, None));
      } else if st.procs[x].cap.Some? {
        TransferLendsExactly(st, x, st.procs[x].cap.value, cur);
        TransferIgnoresQueues(st, Popped(st, at.value), x, st.procs[x].cap.value, cur);
      }
    }
  }

  lemma CallLends(st: State, cur: Pid, slot: nat, req: nat)
    requires Inv(st) && Lends(st.tables) && st.procs[cur].run.Ready? && Sound(st)
    ensures Lends(CallStep(st, cur, slot, req).0.tables)
  {
    hide Inv, Lends;
    var at := EndpointAt(st, cur, slot, MaySend);
    if at.Some? && Peer(st, at.value, false).Some? {
      InstallLends(st.tables, st.eps[at.value].queue[0], Capability(ReplyTo(cur), {}, None));
    }
  }

  lemma ReplyLends(st: State, cur: Pid, slot: nat, msg: nat)
    requires Lends(st.tables)
    ensures Lends(ReplyStep(st, cur, slot, msg).0.tables)
  {
    hide Lends;
    var held := Held(st.tables[cur], slot);
    if held.Some? && held.value.target.ReplyTo? {
      DutyIsNotLoaned(st.tables, Place(cur, slot));
      WithoutLends(st.tables, cur, slot);
    }
  }

  // ----- runs -----

  /** Every operation of the run lent well where it was taken. */
  ghost predicate BooksKept(ops: seq<Op>)
    decreases |ops|
  {
    ops == [] || (BooksKept(ops[..|ops| - 1]) && LendsWellAfter(ops[..|ops| - 1], ops[|ops| - 1]))
  }

  ghost predicate LendsWellAfter(ops: seq<Op>, op: Op) {
    InvIsSound(Run(ops));
    Enabled(Run(ops), op) ==> LendsWell(Run(ops), op)
  }

  /** Over every run whose loans were good, a slot is reserved if and only if exactly
      one capability in the system is on its way back to it. */
  lemma {:induction false} RunLends(ops: seq<Op>)
    requires BooksKept(ops)
    ensures Lends(Run(ops).tables)
    decreases |ops|
  {
    hide Inv, Lends, Step, LendsWell;
    if ops == [] {
      EmptyLends();
    } else {
      var n := |ops| - 1;
      RunLends(ops[..n]);
      var before := Run(ops[..n]);
      InvIsSound(before);
      if Enabled(before, ops[n]) && !StrandingRelease(before, ops[n]) {
        StepLendsExactly(before, ops[n]);
      }
    }
  }

  lemma EmptyLends()
    ensures Lends(Initial().tables)
  {
  }

  // ----- one loan -----

  /** The loaned capability is unaltered somewhere, or it is home and owned outright. */
  ghost predicate LoanKept(before: seq<Table>, after: seq<Table>, a: Place, o: Origin) {
    && CapAt(before, a).Some?
    && ((exists b :: CapAt(after, b) == CapAt(before, a))
        || CapAt(after, Place(o.lender, o.home)) == Some(CapAt(before, a).value.(origin := None)))
  }

  /** A transfer disturbs nothing but the capability it moves. */
  lemma TransferOnlyMoves(st: State, src: Pid, slot: nat, dst: Pid, b: Place)
    requires src != dst && b != Place(src, slot) && CapAt(st.tables, b).Some?
    ensures CapAt(Transfer(st, src, slot, dst).0.tables, b) == CapAt(st.tables, b)
  {
  }

  lemma TransferKeepsLoan(st: State, src: Pid, slot: nat, dst: Pid, a: Place, o: Origin)
    requires Lends(st.tables) && Tidy(st.tables[src]) && Tidy(st.tables[dst]) && src != dst && Claims(st.tables, a, o)
    ensures LoanKept(st.tables, Transfer(st, src, slot, dst).0.tables, a, o)
  {
    var after := Transfer(st, src, slot, dst).0.tables;
    if a != Place(src, slot) {
      TransferOnlyMoves(st, src, slot, dst, a);
    } else if o.lender == dst {
      ComesHome(st, src, slot, dst, o.home);
    } else {
      var landing := FirstFree(st.tables[dst]);
      var without := LentFrom(st.tables[src], slot);
      if landing.Some? {
        assert CapAt(after, Place(dst, landing.value)) == CapAt(st.tables, a);
      } else {
        assert Available(without, slot);
        assert CapAt(after, Place(src, FirstFree(without).value)) == CapAt(st.tables, a);
      }
    }
  }

  lemma FillsKeepLoan(before: seq<Table>, after: seq<Table>, a: Place, o: Origin)
    requires Claims(before, a, o) && CapAt(after, a) == CapAt(before, a)
    ensures LoanKept(before, after, a, o)
  {
  }

  lemma SpawnKeepsLoan(st: State, cur: Pid, transfer: Option<nat>, loads: bool, a: Place, o: Origin)
    requires Inv(st) && Lends(st.tables) && st.procs[cur].run.Ready? && Claims(st.tables, a, o)
    ensures LoanKept(st.tables, SpawnStep(st, cur, transfer, loads).0.tables, a, o)
  {
    hide Inv, Lends, LentFrom, TakenBack;
    var after := SpawnStep(st, cur, transfer, loads).0.tables;
    if FreeEndpoint(st.eps).Some? {
      var c := FreeProc(st.procs);
      if c.None? || !loads {
        if transfer.Some? && a == Place(cur, transfer.value) {
          TablesAreTidy(st, cur);
          var k := TakenBackWhere(st.tables[cur], transfer.value);
          assert CapAt(after, Place(cur, k)) == CapAt(st.tables, a);
        } else if transfer.Some? && Held(st.tables[cur], transfer.value).Some? {
          TablesAreTidy(st, cur);
          var k := TakenBackWhere(st.tables[cur], transfer.value);
          assert CapAt(after, a) == CapAt(st.tables, a);
        }
      } else {
        TablesAreTidy(st, c.value);
        LaunchKeepsLoan(st, cur, transfer, a, o);
      }
    }
  }

  lemma LaunchKeepsLoan(st: State, cur: Pid, transfer: Option<nat>, a: Place, o: Origin)
    requires Inv(st) && st.procs[cur].run.Ready? && Claims(st.tables, a, o) && FreeEndpoint(st.eps).Some? && FreeProc(st.procs).Some?
    requires st.tables[FreeProc(st.procs).value] == NoCaps()
    ensures LoanKept(st.tables, SpawnStep(st, cur, transfer, true).0.tables, a, o)
  {
    hide Inv, SpawnStep, Install;
    var ep, c := FreeEndpoint(st.eps).value, FreeProc(st.procs).value;
    LaunchIs(st, cur, transfer);
    var s2 := ChildReady(st, cur, transfer, c, ep);
    var recv := Capability(EndpointCap(ep), {MayRecv}, None);
    var b := if transfer.Some? && a == Place(cur, transfer.value) then Place(c, 2) else a;
    ChildHoldsLoan(st, cur, transfer, c, ep, a, o, b);
    InstallKeeps(s2.tables, cur, recv, b);
  }

  lemma ChildHoldsLoan(st: State, cur: Pid, transfer: Option<nat>, c: Pid, ep: Eid, a: Place, o: Origin, b: Place)
    requires Claims(st.tables, a, o) && cur != c && st.tables[c] == NoCaps()
    requires b == if transfer.Some? && a == Place(cur, transfer.value) then Place(c, 2) else a
    ensures CapAt(ChildReady(st, cur, transfer, c, ep).tables, b) == CapAt(st.tables, a)
  {
  }

  lemma ReleaseKeepsLoan(st: State, cur: Pid, slot: nat, a: Place, o: Origin)
    requires Inv(st) && Lends(st.tables) && Claims(st.tables, a, o)
    ensures LoanKept(st.tables, ReleaseStep(st, cur, slot).0.tables, a, o)
  {
    hide Inv, Lends;
    var after := ReleaseStep(st, cur, slot).0.tables;
    if a == Place(cur, slot) {
      ReleasedComesHome(st, cur, slot, o);
    } else {
      assert CapAt(after, a) == CapAt(st.tables, a);
    }
  }

  lemma DeathKeepsLoan(st: State, p: Pid, a: Place, o: Origin)
    requires Inv(st) && Lends(st.tables) && st.procs[p].run.Ready? && Claims(st.tables, a, o) && o.lender != p
    ensures LoanKept(st.tables, Die(st, p).tables, a, o)
  {
    hide Inv, LendsBut, ReclaimFrom, ReapedProc, Drained;
    if a.p == p {
      DeathBringsHome(st, p, a.s, o);
    } else {
      ReclaimFills(st, p, 0);
      assert CapAt(Die(st, p).tables, a) == CapAt(st.tables, a);
    }
  }

  lemma InstallKeeps(tables: seq<Table>, p: nat, cap: Capability, a: Place)
    requires p < |tables| && CapAt(tables, a).Some?
    ensures CapAt(tables[p := Install(tables[p], cap).0], a) == CapAt(tables, a)
  {
  }

  /** No step loses, copies or alters a loaned capability, short of its owner dying:
      it is still the one claim on its home slot, or it is in that slot. */
  lemma StepKeepsLoan(st: State, op: Op, a: Place, o: Origin)
    requires Inv(st) && Lends(st.tables) && Enabled(st, op) && Sound(st) && Claims(st.tables, a, o)
    requires op.OpDie? ==> op.dying != o.lender
    ensures LoanKept(st.tables, Step(st, op).tables, a, o)
  {
    hide Inv, Lends, Transfer, SpawnStep, ReleaseStep, Die, LoanKept, Install, Tidy, CapAt;
    match op {
      case OpCreate => FillsKeepLoan(st.tables, Step(st, op).tables, a, o);
      case OpBoot => BootKeepsLoan(st, a, o);
      case OpMint(p, target, rights) =>
        InstallKeeps(st.tables, p, Capability(target, rights, None), a);
        FillsKeepLoan(st.tables, st.tables[p := Install(st.tables[p], Capability(target, rights, None)).0], a, o);
        FillsKeepLoan(st.tables, st.tables, a, o);
      case OpSend(p, slot, msg, cap) => SendKeepsLoan(st, p, slot, msg, cap, a, o);
      case OpRecv(p, slot) => RecvKeepsLoan(st, p, slot, a, o);
      case OpCall(p, slot, req) => CallKeepsLoan(st, p, slot, req, a, o);
      case OpReply(p, slot, msg) => ReplyKeepsLoan(st, p, slot, msg, a, o);
      case OpSpawn(p, transfer, loads) => SpawnKeepsLoan(st, p, transfer, loads, a, o);
      case OpRelease(p, slot) => ReleaseKeepsLoan(st, p, slot, a, o);
      case OpDie(p) => DeathKeepsLoan(st, p, a, o);
    }
  }

  lemma BootKeepsLoan(st: State, a: Place, o: Origin)
    requires Inv(st) && Claims(st.tables, a, o)
    ensures LoanKept(st.tables, Boot(st).tables, a, o)
  {
    hide LoanKept;
    if FreeProc(st.procs).Some? { TablesAreTidy(st, FreeProc(st.procs).value); }
    FillsKeepLoan(st.tables, Boot(st).tables, a, o);
  }

  lemma SendKeepsLoan(st: State, cur: Pid, slot: nat, msg: nat, cap: Option<nat>, a: Place, o: Origin)
    requires Inv(st) && Lends(st.tables) && st.procs[cur].run.Ready? && Sound(st) && Claims(st.tables, a, o)
    ensures LoanKept(st.tables, SendStep(st, cur, slot, msg, cap).0.tables, a, o)
  {
    hide Inv, Lends, Transfer, Tidy, LoanKept, CapAt;
    FillsKeepLoan(st.tables, st.tables, a, o);
    var at := EndpointAt(st, cur, slot, MaySend);
    if at.Some? && Peer(st, at.value, false).Some? && cap.Some? {
      var x := st.eps[at.value].queue[0];
      EndsDiffer(st, cur, at.value, false);
      TransferKeepsLoan(st, cur, cap.value, x, a, o);
      TransferIgnoresQueues(st, Popped(st, at.value), cur, cap.value, x);
    }
  }

  lemma RecvKeepsLoan(st: State, cur: Pid, slot: nat, a: Place, o: Origin)
    requires Inv(st) && Lends(st.tables) && st.procs[cur].run.Ready? && Sound(st) && Claims(st.tables, a, o)
    ensures LoanKept(st.tables, RecvStep(st, cur, slot).0.tables, a, o)
  {
    hide Inv, Lends, Transfer, Tidy, LoanKept, CapAt, Install;
    FillsKeepLoan(st.tables, st.tables, a, o);
    var at := EndpointAt(st, cur, slot, MayRecv);
    if at.Some? && Peer(st, at.value, true).Some? {
      var x := st.eps[at.value].queue[0];
      EndsDiffer(st, cur, at.value, true);
      if st.procs[x].isCall {
        var reply := Capability(ReplyTo(x), {}, None);
        InstallKeeps(st.tables, cur, reply, a);
        FillsKeepLoan(st.tables, st.tables[cur := Install(st.tables[cur], reply).0], a, o);
      } else if st.procs[x].cap.Some? {
        TransferKeepsLoan(st, x, st.procs[x].cap.value, cur, a, o);
        TransferIgnoresQueues(st, Popped(st, at.value), x, st.procs[x].cap.value, cur);
      }
    }
  }

  lemma CallKeepsLoan(st: State, cur: Pid, slot: nat, req: nat, a: Place, o: Origin)
    requires Inv(st) && st.procs[cur].run.Ready? && Sound(st) && Claims(st.tables, a, o)
    ensures LoanKept(st.tables, CallStep(st, cur, slot, req).0.tables, a, o)
  {
    hide Inv, LoanKept, CapAt, Install;
    FillsKeepLoan(st.tables, st.tables, a, o);
    var at := EndpointAt(st, cur, slot, MaySend);
    if at.Some? && Peer(st, at.value, false).Some? {
      var x := st.eps[at.value].queue[0];
      InstallKeeps(st.tables, x, Capability(ReplyTo(cur), {}, None), a);
      FillsKeepLoan(st.tables, st.tables[x := Install(st.tables[x], Capability(ReplyTo(cur), {}, None)).0], a, o);
    }
  }

  lemma ReplyKeepsLoan(st: State, cur: Pid, slot: nat, msg: nat, a: Place, o: Origin)
    requires Lends(st.tables) && Claims(st.tables, a, o)
    ensures LoanKept(st.tables, ReplyStep(st, cur, slot, msg).0.tables, a, o)
  {
    hide Lends, LoanKept;
    if a == Place(cur, slot) && st.tables[cur].caps[slot].value.target.ReplyTo? { DutyIsNotLoaned(st.tables, a); }
    FillsKeepLoan(st.tables, ReplyStep(st, cur, slot, msg).0.tables, a, o);
  }

  lemma FilledIsNotReserved(st: State, o: Origin)
    requires Inv(st) && CapAt(st.tables, Place(o.lender, o.home)).Some?
    ensures !Reserved(st.tables, o)
  {
    hide Inv;
    TablesAreTidy(st, o.lender);
  }

  lemma CopyClaims(before: seq<Table>, after: seq<Table>, a: Place, o: Origin)
    requires Lends(after) && Claims(before, a, o) && (exists b :: CapAt(after, b) == CapAt(before, a))
    ensures Reserved(after, o)
  {
    var b :| CapAt(after, b) == CapAt(before, a);
    assert Claims(after, b, o);
  }

  /** A reservation ends only by its own capability landing in it, owned outright and
      otherwise as it was lent, or with the death of the lender. */
  lemma LoanEndsAtHome(st: State, op: Op, a: Place, o: Origin)
    requires Inv(st) && Lends(st.tables) && Enabled(st, op) && Sound(st) && !StrandingRelease(st, op) && LendsWell(st, op)
    requires Claims(st.tables, a, o) && (op.OpDie? ==> op.dying != o.lender)
    ensures var after := Step(st, op).tables;
            if Reserved(after, o) then exists b :: CapAt(after, b) == CapAt(st.tables, a)
            else CapAt(after, Place(o.lender, o.home)) == Some(CapAt(st.tables, a).value.(origin := None))
  {
    hide Inv, Lends, Step, LendsWell, StrandingRelease, Claims, Reserved, CapAt;
    StepKeepsLoan(st, op, a, o);
    StepLendsExactly(st, op);
    StepKeepsExactly(st, op);
    if exists b :: CapAt(Step(st, op).tables, b) == CapAt(st.tables, a) {
      CopyClaims(st.tables, Step(st, op).tables, a, o);
    } else {
      FilledIsNotReserved(Step(st, op), o);
    }
  }

  /** While a run keeps the slot reserved and its owner alive, the capability it waits
      for is unaltered: same object, same rights, same claim. */
  lemma {:induction false} LoanUnchangedWhileOut(ops: seq<Op>, n: nat, a: Place, o: Origin)
    requires BooksKept(ops) && n <= |ops| && Claims(Run(ops[..n]).tables, a, o)
    requires forall m :: n <= m <= |ops| ==> Reserved(Run(ops[..m]).tables, o)
    requires forall m :: n <= m < |ops| && ops[m].OpDie? ==> ops[m].dying != o.lender
    ensures exists b :: CapAt(Run(ops).tables, b) == CapAt(Run(ops[..n]).tables, a)
    decreases |ops|
  {
    hide Inv, Lends, Step, LendsWell, Reserved, CapAt;
    if n == |ops| {
      assert ops[..n] == ops;
    } else {
      var last := |ops| - 1;
      var earlier := ops[..last];
      assert forall m :: 0 <= m <= last ==> earlier[..m] == ops[..m];
      assert Run(ops[..|ops|]) == Run(ops) by { assert ops[..|ops|] == ops; }
      LoanUnchangedWhileOut(earlier, n, a, o);
      var b :| CapAt(Run(earlier).tables, b) == CapAt(Run(ops[..n]).tables, a);
      RunLends(earlier);
      InvIsSound(Run(earlier));
      if Enabled(Run(earlier), ops[last]) && !StrandingRelease(Run(earlier), ops[last]) {
        assert Claims(Run(earlier).tables, b, o);
        LoanEndsAtHome(Run(earlier), ops[last], b, o);
      }
    }
  }

  // ----- why the condition is needed -----

  /** A loan of a kind that never comes home still takes a reserved slot when it is
      handed back: the slot it left may since have been reserved for something else,
      whose own return then lands elsewhere. */
  lemma StrayLoanTakesTheSlot(st: State, src: Pid, slot: nat, dst: Pid, h: nat, other: Capability)
    requires src != dst && Claims(st.tables, Place(src, slot), Origin(dst, h)) && AwaitsReturn(st.tables[dst], h)
    requires other.origin == Some(Origin(dst, h))
    ensures var (st', landing) := Transfer(st, src, slot, dst);
            && landing == Some(h) && !Reserved(st'.tables, Origin(dst, h))
            && InstallHome(st'.tables[dst], other.(origin := None), other.origin, dst).1 != Some(h)
  {
  }

  /** A transfer that finds no room leaves the tables untouched exactly when the
      capability was not a first loan of a returning kind and no earlier slot of the
      giver's was free. */
  lemma RefusedTransferIsInvisible(st: State, src: Pid, slot: nat, dst: Pid)
    requires Tidy(st.tables[src]) && src != dst && slot < MAX_CAPS && st.tables[src].caps[slot].Some?
    requires Transfer(st, src, slot, dst).1.None?
    ensures Transfer(st, src, slot, dst).0.tables == st.tables <==>
            !LendReserves(st.tables[src].caps[slot].value) && forall i :: 0 <= i < slot ==> !Available(st.tables[src], i)
  {
    var t := st.tables[src];
    var cap := t.caps[slot].value;
    var without := LentFrom(t, slot);
    var after := Transfer(st, src, slot, dst).0.tables;
    assert after == st.tables[src := Install(without, cap).0];
    assert after == st.tables <==> Install(without, cap).0 == t by {
      assert st.tables[src := t] == st.tables && after[src] == Install(without, cap).0;
    }
    if LendReserves(cap) {
      assert without.reserved[slot] && !t.reserved[slot];
    } else {
      assert Available(without, slot);
      assert forall i :: 0 <= i < slot ==> (Available(t, i) <==> Available(without, i));
      var k := FirstFree(without).value;
      if k == slot {
        assert t.caps[slot := None][slot := Some(cap)] == t.caps;
      } else {
        assert t.caps[k].None?;
      }
    }
  }
}
