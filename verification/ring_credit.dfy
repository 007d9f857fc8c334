/** How many requests a library OS may have under way on one ring so that no completion
    it has not read is ever overwritten (kernel/src/rings.rs). The kernel never refuses
    a block completion: the queue is the library OS's to size. */
module RingCredit {
  import opened Prelude
  import opened Capabilities
  import opened RingQueues
  import opened Rings
  import opened EventStreams
  import opened RingTables
  import opened RingSubmit
  import E = EventRuns

  /** How many of the requests in flight complete to this ring. */
  function FlyingOn(flying: seq<Posted>, id: nat): nat {
    if flying == [] then 0
    else FlyingOn(flying[..|flying| - 1], id) + if flying[|flying| - 1].ring == id then 1 else 0
  }

  lemma FlyingMore(flying: seq<Posted>, p: Posted, id: nat)
    ensures FlyingOn(flying + [p], id) == FlyingOn(flying, id) + if p.ring == id then 1 else 0
  {
    assert (flying + [p])[..|flying|] == flying;
  }

  lemma {:induction false} FlyingAppend(a: seq<Posted>, b: seq<Posted>, id: nat)
    ensures FlyingOn(a + b, id) == FlyingOn(a, id) + FlyingOn(b, id)
    decreases |b|
  {
    if b == [] {
      assert a + b == a;
    } else {
      FlyingAppend(a, b[..|b| - 1], id);
      assert (a + b)[..|a + b| - 1] == a + b[..|b| - 1];
    }
  }

  lemma FlyingLess(flying: seq<Posted>, k: nat, id: nat)
    requires k < |flying|
    ensures FlyingOn(flying, id)
         == FlyingOn(flying[..k] + flying[k + 1..], id) + if flying[k].ring == id then 1 else 0
  {
    FlyingAppend(flying[..k], flying[k + 1..], id);
    FlyingMore(flying[..k], flying[k], id);
    FlyingAppend(flying[..k] + [flying[k]], flying[k + 1..], id);
    assert flying == flying[..k] + [flying[k]] + flying[k + 1..];
  }

  /** What is under way on the ring: completions not yet read, entries not yet drained,
      and requests in flight. */
  function Spent(r: RingState, flying: seq<Posted>, id: nat): int {
    |r.posted| - r.reaped + |r.sq.pushed| - r.sq.drained + FlyingOn(flying, id)
  }

  predicate InCredit(r: RingState, flying: seq<Posted>, id: nat) {
    r.reaped <= |r.posted| && r.sq.drained <= |r.sq.pushed| && Spent(r, flying, id) <= r.size
  }

  /** The bound is what protects the unread completions: if the requests in flight
      finish before the next read, none that was unread is overwritten exactly when
      there are no more of both than the queue holds. */
  lemma WholeIffWithin(r: RingState, flying: seq<Posted>, id: nat, done: seq<Completion>)
    requires Whole(r) && |done| == FlyingOn(flying, id)
    ensures Whole(Reached(Some(r), done).value) <==> |r.posted| - r.reaped + FlyingOn(flying, id) <= r.size
  {
  }

  /** An event is admitted on what is unread alone. One that takes the last place a
      request in flight was counting on is what makes the reader lose a completion. */
  lemma EventCanTakeTheLastPlace(r: RingState, flying: seq<Posted>, id: nat, event: Completion, done: seq<Completion>)
    requires InCredit(r, flying, id) && r.sq.drained == |r.sq.pushed| && Spent(r, flying, id) == r.size <= MAX_ENTRIES
    requires |done| == FlyingOn(flying, id) > 0
    ensures RoomFor(r, 0)
    ensures Whole(Reached(Some(r), done).value) && !Whole(Reached(Some(r), [event] + done).value)
    ensures var after := Reached(Some(r), [event] + done).value;
      NextRead(after) == Some(done[|done| - 1])
  {
    hide Standing;
    StandsOneTurnOn(r.reaped, r.size);
    assert (r.posted + ([event] + done))[r.reaped + r.size] == done[|done| - 1];
  }

  /** Handling an entry spends at most the place the entry had. */
  lemma {:induction false} DrainSpends(t: Table, present: seq<bool>, id: nat, l: Ledger, es: seq<SqEntry>)
    ensures var after := HandleAll(t, present, id, l, es);
      && |l.posted| <= |after.posted|
      && |after.posted| + FlyingOn(after.flying, id) <= |l.posted| + FlyingOn(l.flying, id) + |es|
    decreases |es|
  {
    hide Judge, FlyingOn;
    if es != [] {
      var before := HandleAll(t, present, id, l, es[..|es| - 1]);
      var e := es[|es| - 1];
      DrainSpends(t, present, id, l, es[..|es| - 1]);
      if Judge(t, e).Io? { FlyingMore(before.flying, Posted(Judge(t, e).req, id, e.userData), id); }
    }
  }

  // ----- a ring in service -----

  /** How many completions an event can put into the queue. */
  function Leads(subs: Subs, source: nat, id: nat): nat {
    if subs == [] then 0
    else
      var last := subs[|subs| - 1];
      Leads(subs[..|subs| - 1], source, id) + if Feeds(last, source) && last.value.ring == id then 1 else 0
  }

  lemma {:induction false} RoutedAtMost(subs: Subs, admitted: seq<bool>, source: nat, event: nat, id: nat, n: nat)
    requires n <= |subs| && n <= |admitted|
    ensures |Routed(subs, admitted, source, event, id, n)| <= Leads(subs[..n], source, id)
  {
    if n > 0 {
      RoutedAtMost(subs, admitted, source, event, id, n - 1);
      assert subs[..n][..n - 1] == subs[..n - 1];
    }
  }

  ghost predicate InService(tab: RingTable, dev: BlockDevices, id: nat)
    reads tab, tab.rings, tab.Repr(), dev
  {
    && Drainable(tab, dev, id) && Honest(tab.View()[id].value.sq)
    && InCredit(tab.View()[id].value, dev.flying, id)
  }

  /** What the library OS can work out from the four index words and its own count of
      requests in flight. */
  method Reckon(tab: RingTable, dev: BlockDevices, id: nat) returns (spent: nat, size: nat)
    requires InService(tab, dev, id)
    ensures InService(tab, dev, id) && StationOf(tab, dev) == old(StationOf(tab, dev)) && tab.Repr() == old(tab.Repr())
    ensures spent == Spent(tab.View()[id].value, dev.flying, id) && size == tab.View()[id].value.size
  {
    var r := tab.rings[id];
    WrapSubIsDistance(|r.posted|, r.reaped);
    WrapSubIsDistance(|r.pushed|, r.drained);
    assert tab.View()[id] == tab.SeatAt(id);
    spent := WrapSub(r.cqTailWord, r.cqHeadWord) + WrapSub(r.sqTailWord, r.sqHeadWord) + FlyingOn(dev.flying, id);
    size := r.cqSlots.Length;
  }

  datatype Service =
    | Enter(e: SqEntry)
    | Knock
    | Done(k: nat, status: nat)
    | Hear(source: nat, event: nat)
    | Take

  /** Everything the operations can change, as values. */
  datatype Station = Station(seats: Seats, subs: Subs, requests: seq<Posted>, flying: seq<Posted>, room: seq<nat>)

  ghost function StationOf(tab: RingTable, dev: BlockDevices): Station
    requires tab.RingsOk()
    reads tab, tab.rings, tab.Repr(), tab.subs, dev
  {
    Station(tab.View(), tab.subs[..], dev.requests, dev.flying, dev.room)
  }

  predicate Seated(st: Station, id: nat) {
    id < |st.seats| && st.seats[id].Some?
  }

  predicate Affords(st: Station, id: nat, places: nat) {
    Seated(st, id) && Spent(st.seats[id].value, st.flying, id) + places <= st.seats[id].value.size
  }

  ghost predicate Entered(was: Station, now: Station, id: nat, e: SqEntry) {
    && Seated(was, id) && Seated(now, id)
    && var (r, sq) := (was.seats[id].value, now.seats[id].value.sq);
       && now == was.(seats := was.seats[id := Some(r.(sq := sq))])
       && sq.pushed == r.sq.pushed + [e] && sq.drained == r.sq.drained && Honest(sq)
  }

  ghost predicate Drained(t: Table, present: seq<bool>, was: Station, now: Station, id: nat, eaten: seq<SqEntry>) {
    && Seated(was, id) && Seated(now, id)
    && var (r, r') := (was.seats[id].value, now.seats[id].value);
       && now.seats == was.seats[id := Some(r.(posted := r'.posted, sq := r.sq.(head := r'.sq.head, drained := r'.sq.drained)))]
       && Ledger(r'.posted, now.requests, now.flying, now.subs)
          == HandleAll(t, present, id, Ledger(r.posted, was.requests, was.flying, was.subs), eaten)
       && r.sq.drained <= r'.sq.drained <= |r.sq.pushed| && eaten == r.sq.pushed[r.sq.drained..r'.sq.drained]
       && (r'.sq.drained == |r.sq.pushed| || Stalled(t, present, now.room, r.sq.pushed[r'.sq.drained]))
  }

  predicate Finished(was: Station, now: Station, k: nat, status: nat) {
    && k < |was.flying| && was.flying[k].req.disk < |was.room|
    && var p := was.flying[k];
       && now.flying == was.flying[..k] + was.flying[k + 1..] && now.room == was.room[p.req.disk := was.room[p.req.disk] + 1]
       && now.requests == was.requests && now.subs == was.subs
       && now.seats == if p.ring < |was.seats|
                       then was.seats[p.ring := Reached(was.seats[p.ring], [Completion(p.userData, status)])] else was.seats
  }

  /** What each operation does; an entry or an event for which the reckoning leaves no
      place is put off. */
  ghost predicate Moves(t: Table, present: seq<bool>, id: nat, was: Station, op: Service, now: Station) {
    match op
    case Enter(e) => if Affords(was, id, 1) then Entered(was, now, id, e) else now == was
    case Knock => exists eaten :: Drained(t, present, was, now, id, eaten)
    case Done(k, status) => if k < |was.flying| then Finished(was, now, k, status) else now == was
    case Hear(source, event) =>
      if Affords(was, id, Leads(was.subs, source, id))
      then now == was.(seats := E.SeatsAfter(was.seats, was.subs, source, event),
                       subs := E.SubsAfter(was.seats, was.subs, source, event))
      else now == was
    case Take => Seated(was, id) && now == was.(seats := was.seats[id := Some(AfterRead(was.seats[id].value))])
  }

  method EnterOne(tab: RingTable, dev: BlockDevices, id: nat, e: SqEntry)
    requires InService(tab, dev, id) && Affords(StationOf(tab, dev), id, 1)
    modifies tab.Repr()
    ensures InService(tab, dev, id) && tab.Repr() == old(tab.Repr()) && SameReading(old(tab.View()), tab.View(), id)
    ensures Entered(old(StationOf(tab, dev)), StationOf(tab, dev), id, e)
  {
    hide RingTable.RingsOk, RingTable.View, RingTable.Repr, RingTable.Valid, Honest, FlyingOn;
    HonestBounds(tab.View()[id].value.sq);
    SizeIsGood(tab, id);
    PushHonest(tab, dev, id, e);
  }

  /** Nothing was read, and what was posted is still there first. */
  predicate SameReading(before: Seats, after: Seats, id: nat) {
    && id < |before| && id < |after| && before[id].Some? && after[id].Some?
    && after[id].value.reaped == before[id].value.reaped && before[id].value.posted <= after[id].value.posted
  }

  method KnockOne(tab: RingTable, dev: BlockDevices, t: Table, id: nat)
    requires InService(tab, dev, id)
    modifies tab.Repr(), dev
    ensures InService(tab, dev, id) && tab.Repr() == old(tab.Repr()) && SameReading(old(tab.View()), tab.View(), id)
    ensures Moves(t, dev.present, id, old(StationOf(tab, dev)), Service.Knock, StationOf(tab, dev))
  {
    hide RingTable.RingsOk, RingTable.View, RingTable.Repr, RingTable.Valid, FlyingOn, HandleAll, Stalled, Judge, Intact;
    ghost var l := LedgerOf(tab, dev, id);
    HonestBounds(tab.View()[id].value.sq);
    var _, eaten := Submit(tab, dev, t, id);
    DrainSpends(t, dev.present, id, l, eaten);
    DrainExtends(t, dev.present, id, l, eaten);
    assert Drained(t, dev.present, old(StationOf(tab, dev)), StationOf(tab, dev), id, eaten);
  }

  lemma {:induction false} DrainExtends(t: Table, present: seq<bool>, id: nat, l: Ledger, es: seq<SqEntry>)
    ensures l.posted <= HandleAll(t, present, id, l, es).posted
    decreases |es|
  {
    hide Judge;
    if es != [] { DrainExtends(t, present, id, l, es[..|es| - 1]); }
  }

  /** The device lets go of a request; its completion is still to be posted. */
  method LetGo(tab: RingTable, dev: BlockDevices, id: nat, k: nat) returns (p: Posted)
    requires Drainable(tab, dev, id) && k < |dev.flying|
    modifies dev
    ensures Drainable(tab, dev, id) && tab.View() == old(tab.View()) && tab.Repr() == old(tab.Repr()) && tab.subs[..] == old(tab.subs[..])
    ensures p == old(dev.flying)[k] && p.req.disk < |old(dev.room)| && dev.requests == old(dev.requests)
    ensures dev.flying == old(dev.flying)[..k] + old(dev.flying)[k + 1..]
    ensures dev.room == old(dev.room)[p.req.disk := old(dev.room)[p.req.disk] + 1]
  {
    hide Ring.Valid, NobodyMissed, SubsFine;
    p := dev.Finish(k);
    assert tab.View() == old(tab.View());
  }

  /** A request in flight finishes, on whatever ring it came from. */
  method DoneOne(tab: RingTable, dev: BlockDevices, id: nat, k: nat, status: nat)
    requires InService(tab, dev, id) && k < |dev.flying|
    modifies tab.Repr(), dev
    ensures InService(tab, dev, id) && tab.Repr() == old(tab.Repr()) && SameReading(old(tab.View()), tab.View(), id)
    ensures Finished(old(StationOf(tab, dev)), StationOf(tab, dev), k, status)
  {
    hide RingTable.RingsOk, RingTable.View, RingTable.Repr, FlyingOn, Honest, NobodyMissed, SubsFine;
    FlyingLess(dev.flying, k, id);
    var p := LetGo(tab, dev, id, k);
    if p.ring < MAX_RINGS {
      var _ := tab.Complete(p.ring, p.userData, status);
    }
  }

  /** An event that leaves everything under way its place. */
  method HearOne(tab: RingTable, dev: BlockDevices, id: nat, source: nat, event: nat)
    requires InService(tab, dev, id) && Affords(StationOf(tab, dev), id, Leads(tab.subs[..], source, id))
    modifies tab.Repr()
    ensures InService(tab, dev, id) && tab.Repr() == old(tab.Repr()) && SameReading(old(tab.View()), tab.View(), id)
    ensures StationOf(tab, dev) == old(StationOf(tab, dev)).(
      seats := E.SeatsAfter(old(tab.View()), old(tab.subs[..]), source, event),
      subs := E.SubsAfter(old(tab.View()), old(tab.subs[..]), source, event))
  {
    hide RingTable.RingsOk, RingTable.View, RingTable.Repr, FlyingOn, Honest, NobodyMissed, SubsFine, Routed, Leads, Admits;
    ghost var subs := tab.subs[..];
    var admitted, _ := tab.Deliver(source, event);
    RoutedAtMost(subs, admitted, source, event, id, |subs|);
    assert subs[..|subs|] == subs;
  }

  method TakeOne(tab: RingTable, dev: BlockDevices, id: nat) returns (r: Option<Completion>)
    requires InService(tab, dev, id)
    modifies tab.Repr()
    ensures InService(tab, dev, id) && tab.Repr() == old(tab.Repr())
    ensures StationOf(tab, dev) == old(StationOf(tab, dev)).(
      seats := old(tab.View())[id := Some(AfterRead(old(tab.View())[id].value))])
    ensures var was, now := old(tab.View())[id].value, tab.View()[id].value;
      && now.posted == was.posted && now.reaped == (if r.Some? then was.reaped + 1 else was.reaped) <= |now.posted|
      && r == if was.reaped == |was.posted| then None else Some(was.posted[was.reaped])
  {
    hide RingTable.RingsOk, RingTable.View, RingTable.Repr, FlyingOn, Honest, NobodyMissed, SubsFine, Standing;
    SizeIsGood(tab, id);
    r := tab.ReapFrom(id);
  }

  lemma SizeIsGood(tab: RingTable, id: nat)
    requires tab.RingsOk() && id < MAX_RINGS && tab.View()[id].Some?
    ensures 0 < tab.View()[id].value.size == |tab.View()[id].value.sq.slots| <= MAX_ENTRIES
  {
  }

  /** A ring in service: entries pushed and events delivered while the reckoning leaves
      them a place, and everything else at any time. `path` are the states passed
      through. The reader is given every completion that was ever posted, in order and
      unaltered. */
  method Serve(tab: RingTable, dev: BlockDevices, t: Table, id: nat, ops: seq<Service>)
    returns (got: seq<Completion>, ghost path: seq<Station>)
    requires InService(tab, dev, id)
    modifies tab.Repr(), dev
    ensures InService(tab, dev, id) && Whole(tab.View()[id].value)
    ensures |path| == |ops| + 1 && path[0] == old(StationOf(tab, dev)) && path[|ops|] == StationOf(tab, dev)
    ensures forall n :: 0 <= n < |ops| ==> Moves(t, dev.present, id, path[n], ops[n], path[n + 1])
    ensures var was, now := old(tab.View())[id].value, tab.View()[id].value;
      && was.posted <= now.posted && was.reaped <= now.reaped <= |now.posted|
      && got == now.posted[was.reaped..now.reaped]
  {
    hide RingTable.RingsOk, RingTable.View, RingTable.Repr, RingTable.Valid, FlyingOn, Leads, Honest, Moves;
    got, path := [], [StationOf(tab, dev)];
    ghost var was := tab.View()[id].value;
    for n := 0 to |ops|
      invariant InService(tab, dev, id) && tab.Repr() == old(tab.Repr())
      invariant |path| == n + 1 && path[0] == old(StationOf(tab, dev)) && path[n] == StationOf(tab, dev)
      invariant forall k :: 0 <= k < n ==> Moves(t, dev.present, id, path[k], ops[k], path[k + 1])
      invariant ReadSoFar(was, tab.View(), id, got)
    {
      var taken := ServeOne(tab, dev, t, id, ops[n]);
      got := got + taken;
      path := path + [StationOf(tab, dev)];
    }
  }

  method ServeOne(tab: RingTable, dev: BlockDevices, t: Table, id: nat, op: Service) returns (taken: seq<Completion>)
    requires InService(tab, dev, id)
    modifies tab.Repr(), dev
    ensures InService(tab, dev, id) && tab.Repr() == old(tab.Repr())
    ensures Moves(t, dev.present, id, old(StationOf(tab, dev)), op, StationOf(tab, dev))
    ensures var was, now := old(tab.View())[id].value, tab.View()[id].value;
      && was.posted <= now.posted && was.reaped <= now.reaped <= |now.posted| && taken == now.posted[was.reaped..now.reaped]
  {
    hide RingTable.RingsOk, RingTable.View, RingTable.Repr, RingTable.Valid, FlyingOn, Leads, Honest, Drained, Finished, Entered;
    taken := [];
    var spent, size := Reckon(tab, dev, id);
    match op {
      case Enter(e) =>
        if spent < size { EnterOne(tab, dev, id, e); }
      case Knock =>
        KnockOne(tab, dev, t, id);
      case Done(k, status) =>
        if k < |dev.flying| { DoneOne(tab, dev, id, k, status); }
      case Hear(source, event) =>
        if spent + Leads(tab.subs[..], source, id) <= size { HearOne(tab, dev, id, source, event); }
      case Take =>
        var one := TakeOne(tab, dev, id);
        if one.Some? { taken := [one.value]; }
    }
  }

  ghost predicate ReadSoFar(was: RingState, now: Seats, id: nat, got: seq<Completion>) {
    && id < |now| && now[id].Some?
    && var r := now[id].value;
       was.posted <= r.posted && was.reaped <= r.reaped <= |r.posted| && got == r.posted[was.reaped..r.reaped]
  }
}
