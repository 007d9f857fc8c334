/** Lending with a reservation for the way home: a slot is held open exactly while
    one capability somewhere still has to come back to it. */
module IpcLending {
  import opened Prelude
  import opened Capabilities
  import opened WaitQueues
  import opened IpcModel
  import opened IpcSafety
  import opened IpcSteps
  import opened IpcDeath

  /** A process and a slot of its table. */
  datatype Place = Place(p: nat, s: nat)

  function CapAt(tables: seq<Table>, a: Place): Option<Capability> {
    if a.p < |tables| && a.s < MAX_CAPS then tables[a.p].caps[a.s] else None
  }

  /** The capability at `a` is on loan from `o`. */
  predicate Claims(tables: seq<Table>, a: Place, o: Origin) {
    CapAt(tables, a).Some? && CapAt(tables, a).value.origin == Some(o)
  }

  predicate Reserved(tables: seq<Table>, o: Origin) {
    o.lender < |tables| && o.home < MAX_CAPS && tables[o.lender].reserved[o.home]
  }

  /** Every loan is of a kind that comes home, to a slot held open for it in another
      process. */
  ghost predicate LoansBacked(tables: seq<Table>, but: set<Place>) {
    forall a, o :: Claims(tables, a, o) && a !in but ==>
      Reserved(tables, o) && o.lender != a.p && Reclaimable(CapAt(tables, a).value.target)
  }

  ghost predicate LoansUnique(tables: seq<Table>, but: set<Place>) {
    forall a, b, o :: Claims(tables, a, o) && Claims(tables, b, o) && a !in but && b !in but ==> a == b
  }

  ghost predicate Awaited(tables: seq<Table>, o: Origin, but: set<Place>) {
    exists a :: Claims(tables, a, o) && a !in but
  }

  ghost predicate ReservationsAwaited(tables: seq<Table>, but: set<Place>) {
    forall o :: Reserved(tables, o) ==> Awaited(tables, o, but)
  }

  /** A slot is reserved if and only if exactly one capability has it as origin.
      `but` are places whose capability has already been copied home. */
  ghost predicate LendsBut(tables: seq<Table>, but: set<Place>) {
    LoansBacked(tables, but) && LoansUnique(tables, but) && ReservationsAwaited(tables, but)
  }

  ghost predicate Lends(tables: seq<Table>) {
    LendsBut(tables, {})
  }

  lemma ReservedIffOneLoan(tables: seq<Table>, o: Origin)
    requires Lends(tables)
    ensures Reserved(tables, o) <==> exists a :: Claims(tables, a, o)
    ensures forall a, b :: Claims(tables, a, o) && Claims(tables, b, o) ==> a == b
  {
    assert Reserved(tables, o) ==> Awaited(tables, o, {});
  }

  // ----- how tables may change -----

  /** Same claim on the same kind of thing. */
  predicate SameLoan(x: Option<Capability>, y: Option<Capability>) {
    && (x.Some? && x.value.origin.Some? <==> y.Some? && y.value.origin.Some?)
    && (x.Some? && x.value.origin.Some? ==> x.value.origin == y.value.origin && x.value.target == y.value.target)
  }

  predicate NoLoan(x: Option<Capability>) {
    x.Some? ==> x.value.origin.None?
  }

  /** `after` has the loan of place `a` at place `b`, every other loan where it was,
      and the same reservations. */
  ghost predicate LoanMoved(before: seq<Table>, after: seq<Table>, a: Place, b: Place) {
    && |after| == |before|
    && SameLoan(CapAt(before, a), CapAt(after, b))
    && (a != b ==> NoLoan(CapAt(after, a)) && NoLoan(CapAt(before, b)))
    && (forall c: Place :: c != a && c != b ==> SameLoan(CapAt(before, c), CapAt(after, c)))
    && (forall e :: Reserved(after, e) <==> Reserved(before, e))
  }

  lemma LoanDecides(before: seq<Table>, after: seq<Table>, a: Place, b: Place, o: Origin)
    requires SameLoan(CapAt(before, a), CapAt(after, b))
    ensures Claims(before, a, o) <==> Claims(after, b, o)
    ensures Claims(before, a, o) ==> CapAt(before, a).value.target == CapAt(after, b).value.target
  {
  }

  /** Where the loan at `c` was before. */
  function Was(c: Place, a: Place, b: Place): Place {
    if c == b then a else c
  }

  lemma LoanSource(before: seq<Table>, after: seq<Table>, a: Place, b: Place, c: Place, o: Origin)
    requires LoanMoved(before, after, a, b) && Claims(after, c, o)
    ensures Claims(before, Was(c, a, b), o)
    ensures CapAt(before, Was(c, a, b)).value.target == CapAt(after, c).value.target
    ensures c == a ==> a == b
  {
    hide Reserved;
    LoanDecides(before, after, Was(c, a, b), c, o);
  }

  /** A loan changes hands, or nothing does: the claims stay backed, as long as no
      loan ends up with its own lender. */
  lemma LendsMoved(before: seq<Table>, after: seq<Table>, a: Place, b: Place)
    requires Lends(before) && LoanMoved(before, after, a, b)
    requires forall o :: Claims(after, b, o) ==> o.lender != b.p
    ensures Lends(after)
  {
    hide SameLoan, CapAt, Reserved;
    forall c, o | Claims(after, c, o)
      ensures Reserved(after, o) && o.lender != c.p && Reclaimable(CapAt(after, c).value.target)
    {
      LoanSource(before, after, a, b, c, o);
    }
    forall c, d, o | Claims(after, c, o) && Claims(after, d, o) ensures c == d {
      LoanSource(before, after, a, b, c, o);
      LoanSource(before, after, a, b, d, o);
    }
    forall o | Reserved(after, o) ensures Awaited(after, o, {}) {
      assert Awaited(before, o, {});
      var c :| Claims(before, c, o);
      var d := if c == a then b else c;
      assert c != a && c == b ==> false by { NoLoanNoClaim(before, c, o); }
      LoanDecides(before, after, c, d, o);
    }
  }

  lemma NoLoanNoClaim(tables: seq<Table>, a: Place, o: Origin)
    ensures NoLoan(CapAt(tables, a)) ==> !Claims(tables, a, o)
  {
  }

  ghost predicate SameElsewhere(before: seq<Table>, after: seq<Table>, a: Place, b: Place) {
    |after| == |before| && forall c: Place :: c != a && c != b ==> SameLoan(CapAt(before, c), CapAt(after, c))
  }

  /** A first loan: its home slot becomes reserved, and the one claim on it appears. */
  lemma LendsStarted(before: seq<Table>, after: seq<Table>, a: Place, b: Place)
    requires Lends(before) && SameElsewhere(before, after, a, b) && a.p != b.p
    requires var o := Origin(a.p, a.s);
      && !Reserved(before, o) && Reserved(after, o) && (forall e :: e != o ==> (Reserved(after, e) <==> Reserved(before, e)))
      && NoLoan(CapAt(before, b)) && Claims(after, b, o) && Reclaimable(CapAt(after, b).value.target)
    requires NoLoan(CapAt(before, a)) && NoLoan(CapAt(after, a))
    ensures Lends(after)
  {
    hide SameLoan, CapAt, Reserved;
    var o := Origin(a.p, a.s);
    forall c, e | Claims(after, c, e) ensures (c == b && e == o) || (c != a && c != b && Claims(before, c, e)
        && CapAt(before, c).value.target == CapAt(after, c).value.target)
    {
      if c == b { OneClaim(after, b, o, e); }
      else if c == a { NoLoanNoClaim(after, a, e); }
      else { LoanDecides(before, after, c, c, e); }
    }
    forall e | Reserved(after, e) ensures Awaited(after, e, {}) {
      if e != o {
        assert Awaited(before, e, {});
        var c :| Claims(before, c, e);
        NoLoanNoClaim(before, a, e);
        NoLoanNoClaim(before, b, e);
        LoanDecides(before, after, c, c, e);
      }
    }
  }

  lemma OneClaim(tables: seq<Table>, a: Place, o: Origin, e: Origin)
    requires Claims(tables, a, o) && Claims(tables, a, e)
    ensures o == e
  {
  }

  /** A loan ends: its reservation is used up, and its claim is gone or spent. */
  lemma LendsEnded(before: seq<Table>, after: seq<Table>, a: Place, o: Origin, but: set<Place>)
    requires LendsBut(before, but) && SameElsewhere(before, after, a, a) && Claims(before, a, o) && a !in but
    requires forall e :: Reserved(after, e) <==> Reserved(before, e) && e != o
    ensures LendsBut(after, but + {a})
  {
    hide SameLoan, CapAt, Reserved;
    forall c, e | Claims(after, c, e) && c !in but + {a} ensures Claims(before, c, e) && e != o
      && CapAt(before, c).value.target == CapAt(after, c).value.target
    {
      LoanDecides(before, after, c, c, e);
    }
    forall e | Reserved(after, e) ensures Awaited(after, e, but + {a}) {
      assert Awaited(before, e, but);
      var c :| Claims(before, c, e) && c !in but;
      if c == a { OneClaim(before, a, o, e); }
      LoanDecides(before, after, c, c, e);
    }
  }

  lemma LendsForget(tables: seq<Table>, a: Place, but: set<Place>)
    requires LendsBut(tables, but + {a}) && NoLoan(CapAt(tables, a))
    ensures LendsBut(tables, but)
  {
    hide CapAt, Reserved;
    forall o ensures !Claims(tables, a, o) { NoLoanNoClaim(tables, a, o); }
    forall o | Reserved(tables, o) ensures Awaited(tables, o, but) {
      assert Awaited(tables, o, but + {a});
      var c :| Claims(tables, c, o) && c !in but + {a};
    }
  }

  // ----- transfers -----

  /** The condition a transfer must meet: what is lent for the first time is of a
      kind that comes home exactly when the receiver has room for it. */
  predicate GoodLoan(c: Option<Capability>, dst: Table) {
    c.Some? && c.value.origin.None? ==> (Reclaimable(c.value.target) <==> HasRoom(dst))
  }

  /** A loan going back to its lender lands in the slot it left, owned outright, with
      the reservation used up, whatever else the lender's table holds. */
  lemma ComesHome(st: State, src: Pid, slot: nat, dst: Pid, h: nat)
    requires Lends(st.tables) && Tidy(st.tables[dst]) && src != dst
    requires Claims(st.tables, Place(src, slot), Origin(dst, h))
    ensures var (st', landing) := Transfer(st, src, slot, dst);
            && landing == Some(h)
            && st'.tables[dst] == Landed(st.tables[dst], h, st.tables[src].caps[slot].value.(origin := None))
            && st'.tables[src] == Without(st.tables[src], slot)
            && Lends(st'.tables)
  {
    var o := Origin(dst, h);
    var a := Place(src, slot);
    assert Reserved(st.tables, o);
    var st' := Transfer(st, src, slot, dst).0;
    var tables := st'.tables;
    HomeTables(st.tables, a, o, tables);
  }

  lemma HomeTables(before: seq<Table>, a: Place, o: Origin, after: seq<Table>)
    requires Lends(before) && Claims(before, a, o) && o.lender != a.p && Reserved(before, o)
    requires before[o.lender].caps[o.home].None?
    requires var cap := CapAt(before, a).value.(origin := None);
      after == before[a.p := Without(before[a.p], a.s)][o.lender := Landed(before[o.lender], o.home, cap)]
    ensures Lends(after)
  {
    forall c: Place | c != a ensures SameLoan(CapAt(before, c), CapAt(after, c)) {
    }
    forall e ensures Reserved(after, e) <==> Reserved(before, e) && e != o {
    }
    LendsEnded(before, after, a, o, {});
    LendsForget(after, a, {});
  }

  /** A capability put back where it was, or in an earlier free slot of its table. */
  lemma BackLends(tables: seq<Table>, p: nat, s: nat, k: nat, back: Table)
    requires Lends(tables) && p < |tables| && s < MAX_CAPS && k < MAX_CAPS && (k == s || tables[p].caps[k].None?)
    requires back.caps == tables[p].caps[s := None][k := tables[p].caps[s]] && back.reserved == tables[p].reserved
    ensures Lends(tables[p := back])
  {
    hide Lends;
    var after := tables[p := back];
    var a, b := Place(p, s), Place(p, k);
    forall c: Place | c != a && c != b ensures CapAt(after, c) == CapAt(tables, c) {
    }
    forall o | Claims(after, b, o) ensures o.lender != p { OwnLoanImpossible(tables, a, o); }
    LendsMoved(tables, after, a, b);
  }

  lemma OwnLoanImpossible(tables: seq<Table>, a: Place, o: Origin)
    requires Lends(tables) && Claims(tables, a, o)
    ensures o.lender != a.p
  {
  }

  /** A first loan into a table with room. */
  lemma FirstLoan(st: State, src: Pid, slot: nat, dst: Pid)
    requires Lends(st.tables) && Tidy(st.tables[src]) && src != dst && slot < MAX_CAPS && HasRoom(st.tables[dst])
    requires st.tables[src].caps[slot].Some? && st.tables[src].caps[slot].value.origin.None?
    ensures Lends(Transfer(st, src, slot, dst).0.tables) <==> Reclaimable(st.tables[src].caps[slot].value.target)
  {
    var before, after := st.tables, Transfer(st, src, slot, dst).0.tables;
    var b := Place(dst, FirstFree(st.tables[dst]).value);
    assert Claims(after, b, Origin(src, slot));
    if Reclaimable(st.tables[src].caps[slot].value.target) {
      LendsStarted(before, after, Place(src, slot), b);
    }
  }

  /** A first loan that finds no room: the capability stays with its owner, but a
      slot reserved for it stays reserved with nothing on the way. */
  lemma RefusedLoan(st: State, src: Pid, slot: nat, dst: Pid)
    requires Lends(st.tables) && Tidy(st.tables[src]) && src != dst && slot < MAX_CAPS && !HasRoom(st.tables[dst])
    requires st.tables[src].caps[slot].Some? && st.tables[src].caps[slot].value.origin.None?
    ensures Lends(Transfer(st, src, slot, dst).0.tables) <==> !Reclaimable(st.tables[src].caps[slot].value.target)
  {
    var cap := st.tables[src].caps[slot].value;
    var without := LentFrom(st.tables[src], slot);
    if Reclaimable(cap.target) {
      StrandedReservation(st, src, slot, dst);
    } else {
      assert Available(without, slot);
      BackLends(st.tables, src, slot, FirstFree(without).value, Install(without, cap).0);
    }
  }

  lemma StrandedReservation(st: State, src: Pid, slot: nat, dst: Pid)
    requires Lends(st.tables) && Tidy(st.tables[src]) && src != dst && slot < MAX_CAPS && !HasRoom(st.tables[dst])
    requires st.tables[src].caps[slot].Some? && LendReserves(st.tables[src].caps[slot].value)
    ensures var after := Transfer(st, src, slot, dst).0.tables;
            Reserved(after, Origin(src, slot)) && !Awaited(after, Origin(src, slot), {})
  {
    var before, after := st.tables, Transfer(st, src, slot, dst).0.tables;
    var o := Origin(src, slot);
    assert !Reserved(before, o);
    forall c ensures !Claims(after, c, o) {
      assert !Claims(before, c, o);
    }
  }

  /** Passing on something borrowed, to anyone but its lender. */
  lemma PassedOn(st: State, src: Pid, slot: nat, dst: Pid, o: Origin)
    requires Lends(st.tables) && Tidy(st.tables[src]) && src != dst && Claims(st.tables, Place(src, slot), o) && o.lender != dst
    ensures Lends(Transfer(st, src, slot, dst).0.tables)
  {
    var cap := st.tables[src].caps[slot].value;
    var without := LentFrom(st.tables[src], slot);
    var landing := FirstFree(st.tables[dst]);
    if landing.Some? {
      AcrossLends(st.tables, src, slot, dst, landing.value, without, Put(st.tables[dst], landing.value, cap));
    } else {
      assert Available(without, slot);
      BackLends(st.tables, src, slot, FirstFree(without).value, Install(without, cap).0);
    }
  }

  lemma AcrossLends(tables: seq<Table>, p: nat, s: nat, q: nat, k: nat, without: Table, there: Table)
    requires Lends(tables) && p < |tables| && q < |tables| && p != q && s < MAX_CAPS && k < MAX_CAPS && tables[q].caps[k].None?
    requires without == Without(tables[p], s) && tables[p].caps[s].Some? && there == Put(tables[q], k, tables[p].caps[s].value)
    requires forall o :: Claims(tables, Place(p, s), o) ==> o.lender != q
    ensures Lends(tables[p := without][q := there])
  {
    hide Lends;
    LendsMoved(tables, tables[p := without][q := there], Place(p, s), Place(q, k));
  }

  /** A transfer keeps "reserved if and only if on loan" exactly when a first loan is
      of a returning kind if and only if the receiver has room. Passing on and
      handing back always keep it. */
  lemma TransferLendsExactly(st: State, src: Pid, slot: nat, dst: Pid)
    requires Lends(st.tables) && Tidy(st.tables[src]) && Tidy(st.tables[dst]) && src != dst
    ensures Lends(Transfer(st, src, slot, dst).0.tables) <==> GoodLoan(Held(st.tables[src], slot), st.tables[dst])
  {
    hide Lends, Tidy, Transfer;
    var held := Held(st.tables[src], slot);
    if held.None? {
      NothingToMove(st, src, slot, dst);
    } else if held.value.origin.None? {
      if HasRoom(st.tables[dst]) { FirstLoan(st, src, slot, dst); } else { RefusedLoan(st, src, slot, dst); }
    } else {
      var o := held.value.origin.value;
      assert Claims(st.tables, Place(src, slot), o);
      if o.lender == dst { ComesHome(st, src, slot, dst, o.home); } else { PassedOn(st, src, slot, dst, o); }
    }
  }

  lemma NothingToMove(st: State, src: Pid, slot: nat, dst: Pid)
    requires Held(st.tables[src], slot).None?
    ensures Transfer(st, src, slot, dst) == (st, None)
  {
  }

  // ----- the other operations -----

  /** Changing one slot between things that are on loan from nobody. */
  lemma LendsAside(before: seq<Table>, after: seq<Table>, a: Place)
    requires Lends(before) && |after| == |before|
    requires NoLoan(CapAt(before, a)) && NoLoan(CapAt(after, a))
    requires forall c: Place :: c != a ==> CapAt(after, c) == CapAt(before, c)
    requires forall p :: 0 <= p < |before| ==> after[p].reserved == before[p].reserved
    ensures Lends(after)
  {
    hide Lends;
    LendsMoved(before, after, a, a);
  }

  lemma InstallLends(tables: seq<Table>, p: nat, cap: Capability)
    requires Lends(tables) && p < |tables| && cap.origin.None?
    ensures Lends(tables[p := Install(tables[p], cap).0])
  {
    hide Lends;
    var after := tables[p := Install(tables[p], cap).0];
    var k := Install(tables[p], cap).1;
    if k.Some? {
      LendsAside(tables, after, Place(p, k.value));
    } else {
      assert after == tables;
    }
  }

  lemma WithoutLends(tables: seq<Table>, p: nat, slot: nat)
    requires Lends(tables) && p < |tables| && slot < MAX_CAPS && NoLoan(tables[p].caps[slot])
    ensures Lends(tables[p := Without(tables[p], slot)])
  {
    hide Lends;
    LendsAside(tables, tables[p := Without(tables[p], slot)], Place(p, slot));
  }

  /** Only kinds that come home are on loan; a reply or endpoint never is. */
  lemma DutyIsNotLoaned(tables: seq<Table>, a: Place)
    requires Lends(tables) && CapAt(tables, a).Some? && !Reclaimable(CapAt(tables, a).value.target)
    ensures NoLoan(CapAt(tables, a))
  {
    if CapAt(tables, a).value.origin.Some? {
      assert Claims(tables, a, CapAt(tables, a).value.origin.value);
    }
  }

  lemma ReleaseLends(st: State, cur: Pid, slot: nat)
    requires Inv(st) && Lends(st.tables)
    ensures Lends(ReleaseStep(st, cur, slot).0.tables)
  {
    hide Inv, Lends;
    var held := Held(st.tables[cur], slot);
    if held.Some? && OnRelease(held.value) != Refuse {
      var a := Place(cur, slot);
      if held.value.origin.Some? {
        ReleasedComesHome(st, cur, slot, held.value.origin.value);
      } else {
        WithoutLends(st.tables, cur, slot);
      }
    }
  }

  lemma LenderIsLive(st: State, a: Place, o: Origin)
    requires Inv(st) && Lends(st.tables) && Claims(st.tables, a, o)
    ensures o.lender < MAX_PROCESSES && o.home < MAX_CAPS && o.lender != a.p && !st.procs[o.lender].run.Empty?
    ensures Reclaimable(CapAt(st.tables, a).value.target) && AwaitsReturn(st.tables[o.lender], o.home)
  {
    assert Reserved(st.tables, o);
    assert Tidy(st.tables[o.lender]);
  }

  /** A borrower that politely releases sends the capability to the slot it left. */
  lemma ReleasedComesHome(st: State, cur: Pid, slot: nat, o: Origin)
    requires Inv(st) && Lends(st.tables) && Claims(st.tables, Place(cur, slot), o)
    ensures var st' := ReleaseStep(st, cur, slot).0;
            && o.lender < MAX_PROCESSES && o.home < MAX_CAPS && o.lender != cur
            && st'.tables[o.lender] == Landed(st.tables[o.lender], o.home, st.tables[cur].caps[slot].value.(origin := None))
            && st'.tables[cur] == Without(st.tables[cur], slot)
            && Lends(st'.tables)
  {
    hide Inv;
    var a := Place(cur, slot);
    LenderIsLive(st, a, o);
    HomeTables(st.tables, a, o, ReleaseStep(st, cur, slot).0.tables);
  }

  // ----- spawning -----

  lemma ChildStartLends(st: State, c: Pid, ep: Eid)
    requires Lends(st.tables) && st.tables[c] == NoCaps()
    ensures Lends(ChildStarted(st, c, ep).tables)
  {
    hide Lends;
    var t1 := st.tables[c := FreshTable()];
    LendsAside(st.tables, t1, Place(c, 0));
    LendsAside(t1, ChildStarted(st, c, ep).tables, Place(c, 1));
  }

  /** The gift to a child: a first loan of a kind that does not come home is the one
      thing that spoils the books. */
  lemma GiftLends(before: seq<Table>, cur: Pid, slot: nat, c: Pid, after: seq<Table>)
    requires Lends(before) && |before| == MAX_PROCESSES && Tidy(before[cur]) && cur != c && slot < MAX_CAPS
    requires before[cur].caps[slot].Some? && Available(before[c], 2)
    requires forall o :: Claims(before, Place(cur, slot), o) ==> o.lender != c
    requires var cap := before[cur].caps[slot].value;
      after == before[cur := LentFrom(before[cur], slot)][c := Put(before[c], 2, LentToChild(cap, Origin(cur, slot)))]
    ensures var cap := before[cur].caps[slot].value;
      Lends(after) <==> (cap.origin.None? ==> Reclaimable(cap.target))
  {
    var cap := before[cur].caps[slot].value;
    var a, b := Place(cur, slot), Place(c, 2);
    if cap.origin.None? {
      assert Claims(after, b, Origin(cur, slot));
      if Reclaimable(cap.target) { LendsStarted(before, after, a, b); }
    } else {
      LendsMoved(before, after, a, b);
    }
  }

  lemma TakenBackLends(st: State, cur: Pid, slot: nat)
    requires Lends(st.tables) && Tidy(st.tables[cur]) && slot < MAX_CAPS && st.tables[cur].caps[slot].Some?
    ensures Lends(st.tables[cur := TakenBack(LentFrom(st.tables[cur], slot), slot, st.tables[cur].caps[slot].value)])
  {
    var k := TakenBackWhere(st.tables[cur], slot);
    hide LentFrom, TakenBack, Lends;
    BackLends(st.tables, cur, slot, k, TakenBack(LentFrom(st.tables[cur], slot), slot, st.tables[cur].caps[slot].value));
  }

  /** The condition a spawn must meet. */
  predicate GoodGift(st: State, cur: Pid, transfer: Option<nat>, loads: bool) {
    (loads && FreeEndpoint(st.eps).Some? && FreeProc(st.procs).Some? && transfer.Some?
     && Held(st.tables[cur], transfer.value).Some? && Held(st.tables[cur], transfer.value).value.origin.None?)
    ==> Reclaimable(Held(st.tables[cur], transfer.value).value.target)
  }

  lemma SpawnLendsExactly(st: State, cur: Pid, transfer: Option<nat>, loads: bool)
    requires Inv(st) && Lends(st.tables) && st.procs[cur].run.Ready?
    ensures Lends(SpawnStep(st, cur, transfer, loads).0.tables) <==> GoodGift(st, cur, transfer, loads)
  {
    hide Inv, Lends, Claims;
    if FreeEndpoint(st.eps).Some? {
      var taken := if transfer.Some? then Held(st.tables[cur], transfer.value) else None;
      if FreeProc(st.procs).None? || !loads {
        if taken.Some? {
          assert Tidy(st.tables[cur]) by { TablesAreTidy(st, cur); }
          TakenBackLends(st, cur, transfer.value);
        }
      } else {
        LaunchLends(st, cur, transfer);
      }
    }
  }

  lemma TablesAreTidy(st: State, p: Pid)
    requires Inv(st)
    ensures Tidy(st.tables[p]) && (st.procs[p].run.Empty? ==> st.tables[p] == NoCaps())
  {
  }

  lemma LaunchLends(st: State, cur: Pid, transfer: Option<nat>)
    requires Inv(st) && Lends(st.tables) && st.procs[cur].run.Ready? && FreeEndpoint(st.eps).Some? && FreeProc(st.procs).Some?
    ensures Lends(SpawnStep(st, cur, transfer, true).0.tables) <==> GoodGift(st, cur, transfer, true)
  {
    hide Inv, Lends, Claims, LentFrom, LentToChild, Tidy, Install, FreshTable;
    var ep, c := FreeEndpoint(st.eps).value, FreeProc(st.procs).value;
    TablesAreTidy(st, c);
    TablesAreTidy(st, cur);
    ChildStartLends(st, c, ep);
    var started := ChildStarted(st, c, ep).tables;
    var taken := if transfer.Some? then Held(st.tables[cur], transfer.value) else None;
    var mine := if taken.None? then st.tables[cur] else LentFrom(st.tables[cur], transfer.value);
    var moved := started;
    if taken.Some? {
      moved := started[cur := mine][c := Put(started[c], 2, LentToChild(taken.value, Origin(cur, transfer.value)))];
      forall o | Claims(started, Place(cur, transfer.value), o) ensures o.lender != c {
        ClaimsOnTheLiving(st, cur, transfer.value, started, o);
      }
      ThirdSlotFree(started[c], ep);
      GiftLends(started, cur, transfer.value, c, moved);
    }
    var recv := Capability(EndpointCap(ep), {MayRecv}, None);
    var final := SpawnStep(st, cur, transfer, true).0.tables;
    assert final == moved[cur := Install(mine, recv).0];
    HandleLends(moved, cur, recv);
  }

  lemma ThirdSlotFree(t: Table, ep: Eid)
    requires t == Put(FreshTable(), 1, ResultSend(ep))
    ensures Available(t, 2)
  {
  }

  lemma ClaimsOnTheLiving(st: State, p: Pid, slot: nat, tables: seq<Table>, o: Origin)
    requires Inv(st) && Lends(st.tables) && |tables| == MAX_PROCESSES && tables[p] == st.tables[p] && Claims(tables, Place(p, slot), o)
    ensures o.lender < MAX_PROCESSES && !st.procs[o.lender].run.Empty?
  {
    hide Inv;
    LenderIsLive(st, Place(p, slot), o);
  }

  /** Minting the caller's receive handle neither mends nor spoils the books. */
  lemma HandleLends(before: seq<Table>, p: Pid, cap: Capability)
    requires |before| == MAX_PROCESSES && cap.origin.None?
    ensures Lends(before[p := Install(before[p], cap).0]) <==> Lends(before)
  {
    hide Lends;
    if Lends(before) { InstallLends(before, p, cap); }
    var after := before[p := Install(before[p], cap).0];
    var k := Install(before[p], cap).1;
    if Lends(after) && k.Some? {
      assert after[p].caps[k.value := None] == before[p].caps;
      WithoutLends(after, p, k.value);
      assert after[p := Without(after[p], k.value)] == before;
    } else if k.None? {
      assert after == before;
    }
  }
}
