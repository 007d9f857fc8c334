/** The doorbell: draining a submission queue against the submitter's capabilities
    (kernel/src/rings.rs). */
module RingSubmit {
  import opened Prelude
  import opened Capabilities
  import opened WaitQueues
  import opened RingQueues
  import opened Rings
  import opened EventStreams
  import opened RingTables

  const SECTOR_SIZE: nat := 512
  const PAGE: nat := 4096
  const U64: nat := 0x1_0000_0000_0000_0000
  const N_SOURCES: nat := 2

  const OP_READ: nat := 0
  const OP_EVENT_SUB: nat := 1
  const OP_CANCEL: nat := 2
  const OP_WRITE: nat := 3

  const EVENT_SUB_ERR: nat := 0
  const BLK_E_BADARG: nat := 1
  const BLK_E_RANGE: nat := 2
  const BLK_E_RIGHTS: nat := 3
  const BLK_E_DEV: nat := 4

  /** What reaches a device: absolute sectors and one frame. */
  datatype Request = Request(disk: nat, sector: nat, count: nat, frame: nat, write: bool)

  datatype Posted = Posted(req: Request, ring: nat, userData: nat)

  datatype Verdict = Io(req: Request) | Bad(status: nat) | Subscribe(source: nat) | Cancel

  /** The checks `post_entry` makes, in its order. */
  function Judge(t: Table, e: SqEntry): Verdict {
    if e.op == OP_READ || e.op == OP_WRITE then
      var count := e.flags % 65536;
      if count == 0 || count * SECTOR_SIZE > PAGE then Bad(BLK_E_BADARG)
      else
        match Granted(t, e.rangeSlot, if e.op == OP_READ then MayRead else MayWrite)
        case Some(BlockRange(disk, start, size)) =>
          if e.sectorOff + count >= U64 || e.sectorOff + count > size then Bad(BLK_E_RANGE)
          else (match Granted(t, e.frameSlot, if e.op == OP_READ then MayWrite else MayRead)
                case Some(Frame(addr)) => Io(Request(disk, start + e.sectorOff, count, addr, e.op == OP_WRITE))
                case _ => Bad(BLK_E_RIGHTS))
        case _ => Bad(BLK_E_RIGHTS)
    else if e.op == OP_EVENT_SUB then
      match Granted(t, e.rangeSlot, MayRead)
      case Some(EventSource(source)) => if source < N_SOURCES then Subscribe(source) else Bad(EVENT_SUB_ERR)
      case _ => Bad(EVENT_SUB_ERR)
    else if e.op == OP_CANCEL then Cancel
    else Bad(BLK_E_BADARG)
  }

  /** A request the submitter may make: it holds the blocks, in the direction asked,
      and a frame the device may use that way; the transfer fits the frame. */
  ghost predicate Authorised(t: Table, req: Request) {
    exists slot, frameSlot ::
      && 0 <= slot < MAX_CAPS && 0 <= frameSlot < MAX_CAPS
      && CoversRequest(t.caps[slot], req) && LendsFrame(t.caps[frameSlot], req)
  }

  predicate CoversRequest(c: Option<Capability>, req: Request) {
    && c.Some? && c.value.target.BlockRange? && c.value.target.disk == req.disk
    && (if req.write then MayWrite else MayRead) in c.value.rights
    && c.value.target.start <= req.sector && req.sector + req.count <= c.value.target.start + c.value.target.count
    && 0 < req.count && req.count * SECTOR_SIZE <= PAGE
  }

  predicate LendsFrame(c: Option<Capability>, req: Request) {
    && c.Some? && c.value.target == Frame(req.frame)
    && (if req.write then MayRead else MayWrite) in c.value.rights
  }

  lemma IoIsAuthorised(t: Table, e: SqEntry)
    requires Judge(t, e).Io?
    ensures Authorised(t, Judge(t, e).req)
  {
    var req := Judge(t, e).req;
    assert CoversRequest(t.caps[e.rangeSlot], req) && LendsFrame(t.caps[e.frameSlot], req);
  }

  /** And nothing more is asked: every authorised request has an entry that makes it. */
  lemma AuthorisedCanBeAsked(t: Table, req: Request) returns (e: SqEntry)
    requires Authorised(t, req) && req.sector + req.count < U64
    ensures Judge(t, e) == Io(req)
  {
    var slot, frameSlot :| 0 <= slot < MAX_CAPS && 0 <= frameSlot < MAX_CAPS
      && CoversRequest(t.caps[slot], req) && LendsFrame(t.caps[frameSlot], req);
    e := SqEntry(if req.write then OP_WRITE else OP_READ, req.count, slot, frameSlot, req.sector - t.caps[slot].value.target.start, 0);
  }

  // ----- what the drain does, entry by entry -----

  /** What draining can change, beside the indices. */
  datatype Ledger = Ledger(posted: seq<Completion>, requests: seq<Posted>, flying: seq<Posted>, subs: Subs)

  function Sent(l: Ledger, p: Posted): Ledger {
    l.(requests := l.requests + [p], flying := l.flying + [p])
  }

  function Answered(l: Ledger, userData: nat, status: nat): Ledger {
    l.(posted := l.posted + [Completion(userData, status)])
  }

  function Handle(t: Table, present: seq<bool>, id: nat, l: Ledger, e: SqEntry): Ledger {
    match Judge(t, e)
    case Bad(status) => Answered(l, e.userData, status)
    case Io(req) =>
      if req.disk < |present| && present[req.disk] then Sent(l, Posted(req, id, e.userData))
      else Answered(l, e.userData, BLK_E_DEV)
    case Subscribe(source) =>
      if FindSub(l.subs, id, e.userData).Some? || FreeSub(l.subs).None? then Answered(l, e.userData, EVENT_SUB_ERR)
      else l.(subs := l.subs[FreeSub(l.subs).value := Some(Subscription(source, id, e.userData, 0))])
    case Cancel =>
      if FindSub(l.subs, id, e.userData).Some? then l.(subs := l.subs[FindSub(l.subs, id, e.userData).value := None]) else l
  }

  function HandleAll(t: Table, present: seq<bool>, id: nat, l: Ledger, es: seq<SqEntry>): Ledger
    decreases |es|
  {
    if es == [] then l else Handle(t, present, id, HandleAll(t, present, id, l, es[..|es| - 1]), es[|es| - 1])
  }

  lemma HandleNone(t: Table, present: seq<bool>, id: nat, l: Ledger)
    ensures HandleAll(t, present, id, l, []) == l
  {
  }

  lemma HandleMore(t: Table, present: seq<bool>, id: nat, l: Ledger, es: seq<SqEntry>, e: SqEntry)
    ensures HandleAll(t, present, id, l, es + [e]) == Handle(t, present, id, HandleAll(t, present, id, l, es), e)
  {
    assert (es + [e])[..|es|] == es;
  }

  /** Whatever was submitted, every request that reached a device is one the submitter
      was entitled to make. */
  lemma {:induction false} OnlyAuthorisedRequests(t: Table, present: seq<bool>, id: nat, l: Ledger, es: seq<SqEntry>)
    ensures var after := HandleAll(t, present, id, l, es);
            && |l.requests| <= |after.requests| && after.requests[..|l.requests|] == l.requests
            && forall k :: |l.requests| <= k < |after.requests| ==> Authorised(t, after.requests[k].req) && after.requests[k].ring == id
    decreases |es|
  {
    hide Authorised, Judge;
    if es != [] {
      var e := es[|es| - 1];
      OnlyAuthorisedRequests(t, present, id, l, es[..|es| - 1]);
      if Judge(t, e).Io? { IoIsAuthorised(t, e); }
    }
  }

  /** The block devices behind the drain: which are present, how many more requests
      each can have in flight, and which are. */
  class BlockDevices {
    const present: seq<bool>
    var room: seq<nat>
    var flying: seq<Posted>
    ghost var requests: seq<Posted>

    ghost predicate Valid()
      reads this
    {
      |room| == |present| && forall k :: 0 <= k < |flying| ==> flying[k].req.disk < |present|
    }

    constructor (present: seq<bool>, room: seq<nat>)
      requires |room| == |present|
      ensures Valid() && this.present == present && this.room == room && requests == flying == []
    {
      this.present, this.room, flying, requests := present, room, [], [];
    }

    /** `ring_post`: refused when the in-flight pool is full. */
    method Post(req: Request, ring: nat, userData: nat) returns (ok: bool)
      requires Valid() && req.disk < |present|
      modifies this
      ensures Valid() && ok == (old(room)[req.disk] > 0)
      ensures room == if ok then old(room)[req.disk := old(room)[req.disk] - 1] else old(room)
      ensures requests == if ok then old(requests) + [Posted(req, ring, userData)] else old(requests)
      ensures flying == if ok then old(flying) + [Posted(req, ring, userData)] else old(flying)
    {
      if room[req.disk] == 0 {
        return false;
      }
      room := room[req.disk := room[req.disk] - 1];
      flying := flying + [Posted(req, ring, userData)];
      requests := requests + [Posted(req, ring, userData)];
      return true;
    }

    /** The device is done with a request in flight: its place is free again. */
    method Finish(k: nat) returns (p: Posted)
      requires Valid() && k < |flying|
      modifies this
      ensures Valid() && p == old(flying)[k] && flying == old(flying)[..k] + old(flying)[k + 1..]
      ensures room == old(room)[p.req.disk := old(room)[p.req.disk] + 1] && requests == old(requests)
    {
      p := flying[k];
      room := room[p.req.disk := room[p.req.disk] + 1];
      flying := flying[..k] + flying[k + 1..];
    }
  }

  /** The entry is a good request whose device has no room left. */
  predicate Stalled(t: Table, present: seq<bool>, room: seq<nat>, e: SqEntry) {
    && Judge(t, e).Io? && Judge(t, e).req.disk < |present| && Judge(t, e).req.disk < |room|
    && present[Judge(t, e).req.disk] && room[Judge(t, e).req.disk] == 0
  }

  ghost function LedgerOf(tab: RingTable, dev: BlockDevices, id: nat): Ledger
    requires tab.RingsOk() && id < MAX_RINGS && tab.View()[id].Some?
    reads tab, tab.rings, tab.Repr(), dev
  {
    Ledger(tab.View()[id].value.posted, dev.requests, dev.flying, tab.subs[..])
  }

  /** What a drain needs and keeps: the submitter's ring, its owner running. */
  ghost predicate Drainable(tab: RingTable, dev: BlockDevices, id: nat)
    reads tab, tab.rings, tab.Repr(), dev
  {
    && tab.RingsOk() && tab.Valid() && dev.Valid() && dev !in tab.Repr() && id < MAX_RINGS && tab.View()[id].Some?
    && tab.View()[id].value.owner < MAX_PROCESSES && !tab.parked[tab.View()[id].value.owner]
  }

  /** Beside its own queue, a drain leaves every ring and every process alone. */
  twostate predicate OthersKept(tab: RingTable, id: nat)
    requires old(tab.RingsOk()) && tab.RingsOk() && id < MAX_RINGS
    reads tab, tab.rings, tab.Repr(), tab.parked
  {
    && old(tab.View())[id].Some? && tab.View()[id].Some?
    && tab.View() == old(tab.View())[id := Some(old(tab.View())[id].value.(posted := tab.View()[id].value.posted))]
    && tab.parked[..] == old(tab.parked[..]) && tab.Repr() == old(tab.Repr())
  }

  /** `finish`: an immediate completion; the owner is running, so nobody is woken. */
  method Finish(tab: RingTable, dev: BlockDevices, id: nat, userData: nat, status: nat)
    requires Drainable(tab, dev, id)
    modifies tab.Repr()
    ensures Drainable(tab, dev, id) && OthersKept(tab, id)
    ensures LedgerOf(tab, dev, id) == Answered(old(LedgerOf(tab, dev, id)), userData, status)
  {
    hide RingTable.RingsOk, RingTable.View, RingTable.Repr, NobodyMissed, SubsFine;
    NotWaiting(tab.View(), tab.parked[..], id);
    var wake := tab.Complete(id, userData, status);
    assert tab.parked[..] == old(tab.parked[..]);
    assert tab.View() == old(tab.View())[id := tab.View()[id]];
  }

  method PostIo(tab: RingTable, dev: BlockDevices, id: nat, req: Request, userData: nat) returns (full: bool)
    requires Drainable(tab, dev, id) && req.disk < |dev.present|
    modifies dev
    ensures Drainable(tab, dev, id) && OthersKept(tab, id)
    ensures full == (old(dev.room)[req.disk] == 0) && (full ==> dev.room == old(dev.room))
    ensures LedgerOf(tab, dev, id) == if full then old(LedgerOf(tab, dev, id))
      else Sent(old(LedgerOf(tab, dev, id)), Posted(req, id, userData))
  {
    hide Ring.Valid, NobodyMissed, SubsFine;
    var ok := dev.Post(req, id, userData);
    full := !ok;
    assert tab.View() == old(tab.View());
  }

  /** `post_entry`: consumed, or left for later because the device is full. */
  method PostEntry(tab: RingTable, dev: BlockDevices, t: Table, id: nat, e: SqEntry) returns (full: bool)
    requires Drainable(tab, dev, id)
    modifies tab.Repr(), dev
    ensures Drainable(tab, dev, id) && OthersKept(tab, id)
    ensures full == Stalled(t, dev.present, old(dev.room), e)
    ensures full ==> dev.room == old(dev.room)
    ensures LedgerOf(tab, dev, id)
         == if full then old(LedgerOf(tab, dev, id)) else Handle(t, dev.present, id, old(LedgerOf(tab, dev, id)), e)
  {
    hide RingTable.RingsOk, RingTable.View, RingTable.Repr, NobodyMissed, SubsFine, Judge;
    match Judge(t, e) {
      case Bad(status) =>
        Finish(tab, dev, id, e.userData, status);
      case Io(req) =>
        if req.disk >= |dev.present| || !dev.present[req.disk] {
          Finish(tab, dev, id, e.userData, BLK_E_DEV);
        } else {
          full := PostIo(tab, dev, id, req, e.userData);
          return full;
        }
      case Subscribe(source) =>
        var slot := tab.Subscribe(source, id, e.userData);
        if slot.None? {
          Finish(tab, dev, id, e.userData, EVENT_SUB_ERR);
        }
      case Cancel =>
        tab.CancelSub(id, e.userData);
    }
    return false;
  }

  /** The library OS has published exactly what it pushed, within the ring. */
  ghost predicate Honest(sq: SqState) {
    Intact(sq.slots, sq.pushed, sq.drained) && sq.tail == |sq.pushed| % U32 && sq.head == sq.drained % U32
  }

  /** How far a drain has come: an honest producer's entries, in order. */
  ghost predicate EatenSo(sq: SqState, eaten: seq<SqEntry>, head: Index) {
    && head == (sq.drained + |eaten|) % U32
    && (Honest(sq) ==> sq.drained + |eaten| <= |sq.pushed| && eaten == sq.pushed[sq.drained..sq.drained + |eaten|])
  }

  lemma EatStart(sq: SqState)
    requires sq.head == sq.drained % U32
    ensures EatenSo(sq, [], sq.head)
  {
  }

  lemma EatMore(sq: SqState, eaten: seq<SqEntry>, head: Index)
    requires EatenSo(sq, eaten, head) && head != sq.tail && GoodSize(|sq.slots|)
    ensures var e := sq.slots[Slot(head, |sq.slots|)];
            && EatenSo(sq, eaten + [e], Bump(head))
            && (Honest(sq) ==> sq.drained + |eaten| < |sq.pushed| && e == sq.pushed[sq.drained + |eaten|])
    ensures WrapSub(sq.tail, Bump(head)) + 1 == WrapSub(sq.tail, head)
  {
    hide Honest, Slot, Bump, WrapSub;
    if Honest(sq) { EatHonest(sq, eaten, head); }
    BumpIsNext(sq.drained + |eaten|);
    OneStepNearer(sq.tail, head);
  }

  lemma EatHonest(sq: SqState, eaten: seq<SqEntry>, head: Index)
    requires EatenSo(sq, eaten, head) && Honest(sq) && head != sq.tail && GoodSize(|sq.slots|)
    ensures var e := sq.slots[Slot(head, |sq.slots|)];
            && sq.drained + |eaten| < |sq.pushed| && e == sq.pushed[sq.drained + |eaten|]
            && eaten + [e] == sq.pushed[sq.drained..sq.drained + |eaten| + 1]
  {
    hide Slot, WrapSub;
    WrapSubIsDistance(|sq.pushed|, sq.drained + |eaten|);
    SlotOfCount(sq.drained + |eaten|, |sq.slots|);
  }

  lemma OneStepNearer(tail: Index, head: Index)
    requires head != tail
    ensures WrapSub(tail, Bump(head)) + 1 == WrapSub(tail, head)
  {
  }

  lemma EatDone(sq: SqState, eaten: seq<SqEntry>, head: Index)
    requires EatenSo(sq, eaten, head) && Honest(sq)
    ensures Honest(sq.(head := head, drained := sq.drained + |eaten|))
    ensures head == sq.tail ==> sq.drained + |eaten| == |sq.pushed|
  {
    WrapSubIsDistance(|sq.pushed|, sq.drained + |eaten|);
  }

  /** `ring_submit`: whatever the tail word says, the drain ends, having handled some
      entries one after another. From an honest producer those are the next entries it
      pushed, each once and in order, and it stops short only at one whose device is
      full. */
  method Submit(tab: RingTable, dev: BlockDevices, t: Table, id: nat) returns (consumed: nat, ghost eaten: seq<SqEntry>)
    requires Drainable(tab, dev, id) && GoodSize(|tab.View()[id].value.sq.slots|)
    modifies tab.Repr(), dev
    ensures Drainable(tab, dev, id) && tab.Repr() == old(tab.Repr()) && consumed == |eaten|
    ensures LedgerOf(tab, dev, id) == HandleAll(t, dev.present, id, old(LedgerOf(tab, dev, id)), eaten)
    ensures var r, r' := old(tab.View())[id].value, tab.View()[id].value;
      && tab.View() == old(tab.View())[id := Some(r'.(sq := r'.sq))]
      && r' == r.(posted := r'.posted, sq := r.sq.(head := r'.sq.head, drained := r.sq.drained + consumed))
      && consumed <= WrapSub(r.sq.tail, r.sq.head)
    ensures tab.parked[..] == old(tab.parked[..])
    ensures Honest(old(tab.View())[id].value.sq) ==>
      var sq := tab.View()[id].value.sq;
      && Honest(sq) && sq.drained <= |sq.pushed|
      && eaten == sq.pushed[old(tab.View())[id].value.sq.drained..sq.drained]
      && (sq.drained == |sq.pushed| || Stalled(t, dev.present, dev.room, sq.pushed[sq.drained]))
  {
    hide RingTable.RingsOk, RingTable.View, RingTable.Repr, RingTable.Valid, HandleAll, Handle, Stalled, LedgerOf;
    hide Honest, Bump, Slot, WrapSub;
    ghost var sq := tab.View()[id].value.sq;
    HandleNone(t, dev.present, id, LedgerOf(tab, dev, id));
    var sqHead, sqTail := ReadSq(tab, dev, id);
    EatStart(sq);
    consumed, eaten := 0, [];
    var full := false;
    while sqHead != sqTail && !full
      invariant Drainable(tab, dev, id) && OthersKept(tab, id) && consumed == |eaten|
      invariant tab.View()[id].value.sq == sq && EatenSo(sq, eaten, sqHead)
      invariant LedgerOf(tab, dev, id) == HandleAll(t, dev.present, id, old(LedgerOf(tab, dev, id)), eaten)
      invariant consumed + WrapSub(sqTail, sqHead) == WrapSub(sq.tail, sq.head)
      invariant Honest(sq) && full ==>
        sq.drained + consumed < |sq.pushed| && Stalled(t, dev.present, dev.room, sq.pushed[sq.drained + consumed])
      decreases WrapSub(sqTail, sqHead), !full
    {
      EatMore(sq, eaten, sqHead);
      ghost var e := sq.slots[Slot(sqHead, |sq.slots|)];
      full := DrainEntry(tab, dev, t, id, sqHead);
      if !full {
        HandleMore(t, dev.present, id, old(LedgerOf(tab, dev, id)), eaten, e);
        eaten := eaten + [e];
        consumed := consumed + 1;
        sqHead := Bump(sqHead);
      }
    }
    Publish(tab, dev, id, sqHead, consumed);
    if Honest(sq) { EatDone(sq, eaten, sqHead); }
  }

  method ReadSq(tab: RingTable, ghost dev: BlockDevices, id: nat) returns (head: Index, tail: Index)
    requires Drainable(tab, dev, id)
    ensures Drainable(tab, dev, id) && OthersKept(tab, id) && tab.View() == old(tab.View())
    ensures LedgerOf(tab, dev, id) == old(LedgerOf(tab, dev, id))
    ensures head == tab.View()[id].value.sq.head == tab.View()[id].value.sq.drained % U32 && tail == tab.View()[id].value.sq.tail
  {
    SeatFields(tab, id);
    head, tail := tab.rings[id].sqHead, tab.rings[id].sqTailWord;
  }

  /** One turn of the drain: copy the entry out, then handle the copy. */
  method DrainEntry(tab: RingTable, dev: BlockDevices, t: Table, id: nat, head: Index) returns (full: bool)
    requires Drainable(tab, dev, id) && GoodSize(|tab.View()[id].value.sq.slots|)
    modifies tab.Repr(), dev
    ensures Drainable(tab, dev, id) && OthersKept(tab, id)
    ensures var sq := old(tab.View())[id].value.sq;
            var e := sq.slots[Slot(head, |sq.slots|)];
      && full == Stalled(t, dev.present, old(dev.room), e) && (full ==> dev.room == old(dev.room))
      && LedgerOf(tab, dev, id)
      == if full then old(LedgerOf(tab, dev, id)) else Handle(t, dev.present, id, old(LedgerOf(tab, dev, id)), e)
  {
    hide RingTable.View, RingTable.Valid, Handle, Stalled, LedgerOf, Ring.Valid, Judge;
    SeatFields(tab, id);
    var slots := tab.rings[id].sqSlots;
    var e := slots[Slot(head, slots.Length)];
    full := PostEntry(tab, dev, t, id, e);
  }

  lemma SeatFields(tab: RingTable, id: nat)
    requires tab.RingsOk() && id < MAX_RINGS && tab.View()[id].Some?
    ensures tab.rings[id] != null
    ensures var r := tab.rings[id];
            && tab.View()[id].value.sq == SqState(r.sqHead, r.sqTailWord, r.sqSlots[..], r.pushed, r.drained)
            && r.sqHead == r.drained % U32 && GoodSize(r.sqSlots.Length)
  {
  }

  method Publish(tab: RingTable, dev: BlockDevices, id: nat, head: Index, ghost consumed: nat)
    requires Drainable(tab, dev, id) && head == (tab.View()[id].value.sq.drained + consumed) % U32
    modifies tab.Repr()
    ensures Drainable(tab, dev, id) && LedgerOf(tab, dev, id) == old(LedgerOf(tab, dev, id))
    ensures tab.parked[..] == old(tab.parked[..]) && tab.Repr() == old(tab.Repr())
    ensures tab.View() == var r := old(tab.View())[id].value;
      old(tab.View())[id := Some(r.(sq := r.sq.(head := head, drained := r.sq.drained + consumed)))]
  {
    ghost var before := tab.View();
    tab.SetSqHead(id, head, consumed);
    SeatsWithSameParking(before, tab.View(), tab.parked[..], tab.subs[..], tab.streams, id);
  }

  lemma SeatsWithSameParking(before: Seats, after: Seats, parked: seq<bool>, subs: Subs, streams: seq<seq<Delivery>>, id: nat)
    requires NobodyMissed(before, parked, {}) && SubsFine(subs, streams, before) && id < |before| && before[id].Some?
    requires exists sq :: after == before[id := Some(before[id].value.(sq := sq))]
    ensures NobodyMissed(after, parked, {}) && SubsFine(subs, streams, after)
  {
    assert forall i: nat :: WaitingAt(after, i) <==> WaitingAt(before, i);
    forall p: nat | p < |parked| && parked[p] ensures WaitsSomewhere(after, p) {
      var j: nat :| WaitingAt(before, j) && before[j].value.owner == p;
      assert WaitingAt(after, j);
    }
  }

  datatype Doorbell = PushOne(e: SqEntry) | Knock

  /** Over any interleaving of honest pushes and doorbells, what has been handled is
      exactly the first of what was pushed, in order and once each. */
  method Doorbells(tab: RingTable, dev: BlockDevices, t: Table, id: nat, ops: seq<Doorbell>) returns (ghost eaten: seq<SqEntry>)
    requires Drainable(tab, dev, id) && Honest(tab.View()[id].value.sq)
    modifies tab.Repr(), dev
    ensures Drainable(tab, dev, id) && Honest(tab.View()[id].value.sq)
    ensures var was, now := old(tab.View())[id].value.sq, tab.View()[id].value.sq;
      && was.pushed <= now.pushed && was.drained <= now.drained <= |now.pushed|
      && eaten == now.pushed[was.drained..now.drained]
    ensures LedgerOf(tab, dev, id) == HandleAll(t, dev.present, id, old(LedgerOf(tab, dev, id)), eaten)
  {
    hide RingTable.RingsOk, RingTable.View, RingTable.Repr, RingTable.Valid, HandleAll, Handle, Stalled, LedgerOf, Honest, Judge;
    eaten := [];
    ghost var was := tab.View()[id].value.sq;
    HandleNone(t, dev.present, id, LedgerOf(tab, dev, id));
    HonestBounds(was);
    for n := 0 to |ops|
      invariant Drainable(tab, dev, id) && tab.Repr() == old(tab.Repr()) && Honest(tab.View()[id].value.sq)
      invariant Prefixed(was, tab.View()[id].value.sq, eaten)
      invariant LedgerOf(tab, dev, id) == HandleAll(t, dev.present, id, old(LedgerOf(tab, dev, id)), eaten)
    {
      match ops[n] {
        case PushOne(e) =>
          PushHonest(tab, dev, id, e);
        case Knock =>
          HonestBounds(tab.View()[id].value.sq);
          ghost var before := tab.View()[id].value.sq;
          var _, m := Submit(tab, dev, t, id);
          HandleAppend(t, dev.present, id, old(LedgerOf(tab, dev, id)), eaten, m);
          PrefixMore(was, before, tab.View()[id].value.sq, eaten, m);
          eaten := eaten + m;
      }
    }
  }

  ghost predicate Prefixed(was: SqState, now: SqState, eaten: seq<SqEntry>) {
    was.pushed <= now.pushed && was.drained <= now.drained <= |now.pushed| && eaten == now.pushed[was.drained..now.drained]
  }

  lemma PrefixMore(was: SqState, before: SqState, now: SqState, eaten: seq<SqEntry>, more: seq<SqEntry>)
    requires Prefixed(was, before, eaten) && now.pushed == before.pushed && before.drained <= now.drained <= |now.pushed|
    requires more == now.pushed[before.drained..now.drained]
    ensures Prefixed(was, now, eaten + more)
  {
  }

  lemma HonestBounds(sq: SqState)
    requires Honest(sq)
    ensures GoodSize(|sq.slots|) && sq.drained <= |sq.pushed|
  {
  }

  lemma {:induction false} HandleAppend(t: Table, present: seq<bool>, id: nat, l: Ledger, a: seq<SqEntry>, b: seq<SqEntry>)
    ensures HandleAll(t, present, id, HandleAll(t, present, id, l, a), b) == HandleAll(t, present, id, l, a + b)
    decreases |b|
  {
    hide Handle;
    if b == [] {
      assert a + b == a;
    } else {
      HandleAppend(t, present, id, l, a, b[..|b| - 1]);
      assert (a + b)[..|a + b| - 1] == a + b[..|b| - 1];
    }
  }

  method PushHonest(tab: RingTable, dev: BlockDevices, id: nat, e: SqEntry)
    requires Drainable(tab, dev, id) && Honest(tab.View()[id].value.sq)
    modifies tab.Repr()
    ensures Drainable(tab, dev, id) && tab.Repr() == old(tab.Repr()) && Honest(tab.View()[id].value.sq)
    ensures var was, now := old(tab.View())[id].value.sq, tab.View()[id].value.sq;
      && now.pushed == (if |was.pushed| < was.drained + |was.slots| then was.pushed + [e] else was.pushed) && now.drained == was.drained
      && tab.View() == old(tab.View())[id := Some(old(tab.View())[id].value.(sq := now))]
    ensures LedgerOf(tab, dev, id) == old(LedgerOf(tab, dev, id))
  {
    hide RingTable.Repr, NobodyMissed, SubsFine, Ring.Valid;
    RingIsHonest(tab, id);
    ghost var before := tab.View();
    var _ := tab.PushEntry(id, e);
    SeatsWithSameParking(before, tab.View(), tab.parked[..], tab.subs[..], tab.streams, id);
    SeatIsHonest(tab, id);
  }

  lemma RingIsHonest(tab: RingTable, id: nat)
    requires tab.RingsOk() && id < MAX_RINGS && tab.View()[id].Some? && Honest(tab.View()[id].value.sq)
    ensures tab.rings[id] != null && tab.rings[id].SqHonest()
  {
  }

  lemma SeatIsHonest(tab: RingTable, id: nat)
    requires tab.RingsOk() && id < MAX_RINGS && tab.View()[id].Some? && tab.rings[id] != null && tab.rings[id].SqHonest()
    ensures Honest(tab.View()[id].value.sq)
  {
  }
}
