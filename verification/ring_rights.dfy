/** What a submitted entry does, told from the entry and the capabilities its submitter
    holds: each refusal by its own condition, each request and each subscription by the
    right behind it (kernel/src/rings.rs, kernel/src/input.rs). */
module RingRights {
  import opened Prelude
  import opened Capabilities
  import opened RingQueues
  import opened Rings
  import opened RingTables
  import opened RingSubmit

  /** The submitter holds, in this slot and with this right, a capability for this. */
  predicate Holds(t: Table, slot: nat, right: Right, target: CapObject) {
    slot < MAX_CAPS && t.caps[slot].Some? && t.caps[slot].value.target == target && right in t.caps[slot].value.rights
  }

  predicate Blockwise(e: SqEntry) { e.op == OP_READ || e.op == OP_WRITE }

  /** A read needs blocks it may read and a frame the device may write; a write the
      other way round. */
  function OnBlocks(e: SqEntry): Right { if e.op == OP_WRITE then MayWrite else MayRead }
  function OnFrame(e: SqEntry): Right { if e.op == OP_WRITE then MayRead else MayWrite }

  /** An unknown operation, or a transfer of no sector or of more than a page. */
  predicate Malformed(e: SqEntry) {
    if Blockwise(e) then e.flags % 65536 == 0 || e.flags % 65536 > 8
    else e.op != OP_EVENT_SUB && e.op != OP_CANCEL
  }

  ghost predicate Ranged(t: Table, e: SqEntry, disk: nat, start: nat, size: nat) {
    && Blockwise(e) && 1 <= e.flags % 65536 <= 8
    && Holds(t, e.rangeSlot, OnBlocks(e), BlockRange(disk, start, size))
  }

  /** The blocks asked for run past the end of the range held, or past any number. */
  predicate Beyond(e: SqEntry, size: nat) {
    e.sectorOff + e.flags % 65536 > size || e.sectorOff + e.flags % 65536 >= U64
  }

  /** Exactly this request of the disk, with the rights for it. */
  ghost predicate Asks(t: Table, e: SqEntry, req: Request) {
    exists start: nat, size: nat ::
      && Ranged(t, e, req.disk, start, size) && !Beyond(e, size) && Holds(t, e.frameSlot, OnFrame(e), Frame(req.frame))
      && req.sector == start + e.sectorOff && req.count == e.flags % 65536 && (req.write <==> e.op == OP_WRITE)
  }

  ghost predicate OutOfRange(t: Table, e: SqEntry) {
    exists disk: nat, start: nat, size: nat :: Ranged(t, e, disk, start, size) && Beyond(e, size)
  }

  /** Well-formed, but the blocks or, within them, the frame are not held as needed. */
  ghost predicate NotHeld(t: Table, e: SqEntry) {
    && Blockwise(e) && !Malformed(e)
    && forall disk: nat, start: nat, size: nat :: Ranged(t, e, disk, start, size) ==>
         !Beyond(e, size) && forall addr: nat :: !Holds(t, e.frameSlot, OnFrame(e), Frame(addr))
  }

  predicate Present(present: seq<bool>, disk: nat) { disk < |present| && present[disk] }

  predicate Taken(subs: Subs, ring: nat, userData: nat) {
    exists k :: 0 <= k < |subs| && HasKey(subs[k], ring, userData)
  }

  predicate HasKey(s: Option<Subscription>, ring: nat, userData: nat) {
    s.Some? && s.value.ring == ring && s.value.userData == userData
  }

  predicate Full(subs: Subs) { forall k :: 0 <= k < |subs| ==> subs[k].Some? }

  /** The event source the entry names is one that exists and that the submitter may read. */
  predicate Hears(t: Table, e: SqEntry, source: nat) {
    e.op == OP_EVENT_SUB && source < 2 && Holds(t, e.rangeSlot, MayRead, EventSource(source))
  }

  ghost predicate Deaf(t: Table, l: Ledger, id: nat, e: SqEntry) {
    && e.op == OP_EVENT_SUB
    && ((forall source: nat :: !Hears(t, e, source)) || Taken(l.subs, id, e.userData) || Full(l.subs))
  }

  /** One completion more, for this entry, and nothing else. */
  predicate Completes(l: Ledger, after: Ledger, e: SqEntry, status: nat) {
    && after.posted == l.posted + [Completion(e.userData, status)]
    && after.requests == l.requests && after.flying == l.flying && after.subs == l.subs
  }

  predicate Starts(l: Ledger, after: Ledger, p: Posted) {
    && after.requests == l.requests + [p] && after.flying == l.flying + [p]
    && after.posted == l.posted && after.subs == l.subs
  }

  /** One subscription more, in the first free place. */
  predicate Subscribes(l: Ledger, after: Ledger, s: Subscription) {
    && after.posted == l.posted && after.requests == l.requests && after.flying == l.flying
    && exists k :: 0 <= k < |l.subs| && l.subs[k].None? && Full(l.subs[..k]) && after.subs == l.subs[k := Some(s)]
  }

  /** Of the subscriptions with this key the first is gone, and no other is touched. */
  predicate Cancelled(was: Subs, now: Subs, ring: nat, userData: nat) {
    && |now| == |was|
    && forall k :: 0 <= k < |was| ==>
         now[k] == if HasKey(was[k], ring, userData) && !Taken(was[..k], ring, userData) then None else was[k]
  }

  // ----- what is judged -----

  lemma JudgedMalformed(t: Table, e: SqEntry)
    ensures Judge(t, e) == Bad(BLK_E_BADARG) <==> Malformed(e)
  {
  }

  lemma JudgedOutOfRange(t: Table, e: SqEntry)
    ensures Judge(t, e) == Bad(BLK_E_RANGE) <==> OutOfRange(t, e)
  {
    if Judge(t, e) == Bad(BLK_E_RANGE) {
      var b := t.caps[e.rangeSlot].value.target;
      assert Ranged(t, e, b.disk, b.start, b.count) && Beyond(e, b.count);
    }
  }

  lemma JudgedAsked(t: Table, e: SqEntry, req: Request)
    ensures Judge(t, e) == Io(req) <==> Asks(t, e, req)
  {
    if Judge(t, e) == Io(req) {
      var b := t.caps[e.rangeSlot].value.target;
      assert Ranged(t, e, req.disk, b.start, b.count) && !Beyond(e, b.count);
    }
  }

  lemma JudgedNotHeld(t: Table, e: SqEntry)
    ensures Judge(t, e) == Bad(BLK_E_RIGHTS) <==> NotHeld(t, e)
  {
    if NotHeld(t, e) && Granted(t, e.rangeSlot, OnBlocks(e)).Some? && Granted(t, e.rangeSlot, OnBlocks(e)).value.BlockRange? {
      var b := t.caps[e.rangeSlot].value.target;
      assert Ranged(t, e, b.disk, b.start, b.count);
      if Granted(t, e.frameSlot, OnFrame(e)).Some? && t.caps[e.frameSlot].value.target.Frame? {
        assert Holds(t, e.frameSlot, OnFrame(e), Frame(t.caps[e.frameSlot].value.target.addr));
      }
    }
  }

  lemma JudgedHeard(t: Table, e: SqEntry)
    ensures forall source: nat :: Judge(t, e) == Subscribe(source) <==> Hears(t, e, source)
    ensures e.op == OP_EVENT_SUB && (forall source: nat :: !Hears(t, e, source)) <==> Judge(t, e) == Bad(EVENT_SUB_ERR)
    ensures Judge(t, e) == Cancel <==> e.op == OP_CANCEL
  {
    if e.op == OP_EVENT_SUB && (forall source: nat :: !Hears(t, e, source)) && Held(t, e.rangeSlot).Some? {
      if t.caps[e.rangeSlot].value.target.EventSource? {
        assert !Hears(t, e, t.caps[e.rangeSlot].value.target.source);
      }
    }
  }

  lemma OneMore<T>(s: seq<T>, a: T, b: T)
    ensures s + [a] == s + [b] <==> a == b
    ensures s + [a] != s
  {
    assert (s + [a])[|s|] == a && (s + [b])[|s|] == b;
  }

  lemma CompletedAs(l: Ledger, e: SqEntry, status: nat, was: nat)
    ensures Completes(l, Answered(l, e.userData, was), e, status) <==> status == was
    ensures forall p :: !Starts(l, Answered(l, e.userData, was), p)
  {
    OneMore(l.posted, Completion(e.userData, was), Completion(e.userData, status));
    forall p ensures l.requests + [p] != l.requests { OneMore(l.requests, p, p); }
  }

  lemma NothingCompletes(l: Ledger, after: Ledger, e: SqEntry)
    requires after.posted == l.posted
    ensures forall status: nat :: !Completes(l, after, e, status)
  {
    forall status: nat ensures l.posted + [Completion(e.userData, status)] != l.posted {
      OneMore(l.posted, Completion(e.userData, status), Completion(e.userData, status));
    }
  }

  lemma StartedAs(l: Ledger, p: Posted, was: Posted)
    ensures Starts(l, Sent(l, was), p) <==> p == was
  {
    OneMore(l.requests, was, p);
  }

  // ----- what is done -----

  /** A block entry: refused, each status exactly in its own case, or the request it asks
      for, under its ring and its user data. */
  lemma BlockEntryExactly(t: Table, present: seq<bool>, id: nat, l: Ledger, e: SqEntry)
    requires Blockwise(e)
    ensures var after := Handle(t, present, id, l, e);
      && (Completes(l, after, e, BLK_E_BADARG) <==> Malformed(e))
      && (Completes(l, after, e, BLK_E_RANGE) <==> OutOfRange(t, e))
      && (Completes(l, after, e, BLK_E_RIGHTS) <==> NotHeld(t, e))
      && (Completes(l, after, e, BLK_E_DEV) <==> exists req :: Asks(t, e, req) && !Present(present, req.disk))
      && forall req :: Starts(l, after, Posted(req, id, e.userData)) <==> Asks(t, e, req) && Present(present, req.disk)
  {
    hide Completes, Starts, Malformed, OutOfRange, NotHeld, Asks, Judge, Answered;
    JudgedMalformed(t, e);
    JudgedOutOfRange(t, e);
    JudgedNotHeld(t, e);
    JudgedForBlocks(t, e);
    forall req { JudgedAsked(t, e, req); }
    match Judge(t, e) {
      case Bad(was) =>
        forall status { CompletedAs(l, e, status, was); }
      case Io(req) =>
        if Present(present, req.disk) {
          NothingCompletes(l, Sent(l, Posted(req, id, e.userData)), e);
          forall q { StartedAs(l, q, Posted(req, id, e.userData)); }
        } else {
          forall status { CompletedAs(l, e, status, BLK_E_DEV); }
        }
    }
  }

  lemma JudgedForBlocks(t: Table, e: SqEntry)
    ensures Blockwise(e) ==> Judge(t, e).Bad? || Judge(t, e).Io?
    ensures Blockwise(e) && Judge(t, e).Bad? ==> Judge(t, e).status in {BLK_E_BADARG, BLK_E_RANGE, BLK_E_RIGHTS}
    ensures !Blockwise(e) && Judge(t, e).Bad? ==> Judge(t, e).status in {BLK_E_BADARG, EVENT_SUB_ERR}
    ensures !Blockwise(e) ==> !Judge(t, e).Io?
  {
  }

  lemma FirstFreeIsOne(subs: Subs)
    ensures FreeSub(subs).None? <==> Full(subs)
    ensures FreeSub(subs).Some? ==> subs[FreeSub(subs).value].None? && Full(subs[..FreeSub(subs).value])
    ensures forall k :: 0 <= k < |subs| && subs[k].None? && Full(subs[..k]) ==> FreeSub(subs) == Some(k)
  {
    var f := FreeSub(subs);
    forall k | 0 <= k < |subs| && subs[k].None? && f != Some(k) ensures !Full(subs[..k]) {
      assert f.Some? && subs[..k][f.value].None?;
    }
  }

  lemma FoundIsTaken(subs: Subs, ring: nat, userData: nat)
    ensures FindSub(subs, ring, userData).Some? <==> Taken(subs, ring, userData)
    ensures var f := FindSub(subs, ring, userData);
            Cancelled(subs, if f.Some? then subs[f.value := None] else subs, ring, userData)
  {
    var f := FindSub(subs, ring, userData);
    forall k | 0 <= k < |subs| && HasKey(subs[k], ring, userData) && (f.None? || f.value != k) ensures Taken(subs[..k], ring, userData) {
      assert f.Some? && HasKey(subs[..k][f.value], ring, userData);
    }
    if f.Some? {
      assert HasKey(subs[f.value], ring, userData);
      assert !Taken(subs[..f.value], ring, userData);
    }
  }

  lemma SubscribedAs(l: Ledger, s: Subscription, was: Subscription)
    requires FreeSub(l.subs).Some?
    ensures Subscribes(l, l.(subs := l.subs[FreeSub(l.subs).value := Some(was)]), s) <==> s == was
  {
    FirstFreeIsOne(l.subs);
    var f := FreeSub(l.subs).value;
    var now := l.subs[f := Some(was)];
    forall k | 0 <= k < |l.subs| && l.subs[k].None? && Full(l.subs[..k]) && now == l.subs[k := Some(s)] ensures s == was {
      assert now[f] == Some(was) && l.subs[k := Some(s)][f] == Some(s);
    }
  }

  lemma NotSubscribed(l: Ledger, after: Ledger, s: Subscription)
    requires |after.subs| == |l.subs| && forall k :: 0 <= k < |l.subs| && l.subs[k].None? ==> after.subs[k].None?
    ensures !Subscribes(l, after, s)
  {
  }

  /** An entry of any other operation. */
  lemma OtherEntryExactly(t: Table, present: seq<bool>, id: nat, l: Ledger, e: SqEntry)
    requires !Blockwise(e)
    ensures var after := Handle(t, present, id, l, e);
      && (Completes(l, after, e, BLK_E_BADARG) <==> Malformed(e))
      && (Completes(l, after, e, EVENT_SUB_ERR) <==> Deaf(t, l, id, e))
      && (forall source: nat :: Subscribes(l, after, Subscription(source, id, e.userData, 0))
            <==> Hears(t, e, source) && !Taken(l.subs, id, e.userData) && !Full(l.subs))
      && (e.op == OP_CANCEL ==> after == l.(subs := after.subs) && Cancelled(l.subs, after.subs, id, e.userData))
  {
    hide Completes, Subscribes, Judge, Cancelled, Full, Taken;
    var after := Handle(t, present, id, l, e);
    JudgedMalformed(t, e);
    JudgedHeard(t, e);
    JudgedForBlocks(t, e);
    FoundIsTaken(l.subs, id, e.userData);
    FirstFreeIsOne(l.subs);
    match Judge(t, e) {
      case Bad(was) =>
        forall status { CompletedAs(l, e, status, was); }
        forall s { NotSubscribed(l, after, s); }
      case Subscribe(source) =>
        if Taken(l.subs, id, e.userData) || Full(l.subs) {
          forall status { CompletedAs(l, e, status, EVENT_SUB_ERR); }
          forall s { NotSubscribed(l, after, s); }
        } else {
          NothingCompletes(l, after, e);
          forall s ensures Subscribes(l, after, s) <==> s == Subscription(source, id, e.userData, 0) {
            SubscribedAs(l, s, Subscription(source, id, e.userData, 0));
          }
        }
      case Cancel =>
        NothingCompletes(l, after, e);
        forall s { NotSubscribed(l, after, s); }
    }
  }

  // ----- over everything submitted -----

  ghost predicate KeysOnce(subs: Subs) {
    forall i, j :: 0 <= i < j < |subs| && subs[i].Some? && subs[j].Some? ==> !SameKey(subs[i].value, subs[j].value)
  }

  /** A cancellation leaves no subscription with its key, and every other as it was. */
  lemma CancelLeavesNone(t: Table, present: seq<bool>, id: nat, l: Ledger, e: SqEntry)
    requires e.op == OP_CANCEL && KeysOnce(l.subs)
    ensures var after := Handle(t, present, id, l, e);
      && after == l.(subs := after.subs) && |after.subs| == |l.subs| && !Taken(after.subs, id, e.userData)
      && forall k :: 0 <= k < |l.subs| && !HasKey(l.subs[k], id, e.userData) ==> after.subs[k] == l.subs[k]
  {
    OtherEntryExactly(t, present, id, l, e);
    var after := Handle(t, present, id, l, e);
    forall i, k | 0 <= i < k < |l.subs| && HasKey(l.subs[i], id, e.userData) ensures !HasKey(l.subs[k], id, e.userData) {
      assert l.subs[k].Some? ==> !SameKey(l.subs[i].value, l.subs[k].value);
    }
  }

  /** One of the entries asked for this subscription, and its submitter could. */
  ghost predicate Armed(t: Table, id: nat, es: seq<SqEntry>, s: Subscription) {
    && s.ring == id && s.dropped == 0
    && exists e :: e in es && e.userData == s.userData && Hears(t, e, s.source)
  }

  ghost predicate Made(t: Table, present: seq<bool>, id: nat, es: seq<SqEntry>, p: Posted) {
    && p.ring == id && Present(present, p.req.disk)
    && exists e :: e in es && e.userData == p.userData && Asks(t, e, p.req)
  }

  /** Refused with this status for a reason that is there. */
  ghost predicate Refused(t: Table, present: seq<bool>, e: SqEntry, status: nat) {
    || (status == BLK_E_BADARG && Malformed(e)) || (status == BLK_E_RANGE && OutOfRange(t, e))
    || (status == BLK_E_RIGHTS && NotHeld(t, e)) || (status == EVENT_SUB_ERR && e.op == OP_EVENT_SUB)
    || (status == BLK_E_DEV && exists req :: Asks(t, e, req) && !Present(present, req.disk))
  }

  ghost predicate Told(t: Table, present: seq<bool>, es: seq<SqEntry>, c: Completion) {
    exists e :: e in es && e.userData == c.userData && Refused(t, present, e, c.status)
  }

  /** Everything new in a ledger comes from an entry and from a right held. */
  ghost predicate AllFromEntries(t: Table, present: seq<bool>, id: nat, es: seq<SqEntry>, l: Ledger, after: Ledger) {
    && |after.subs| == |l.subs| && l.posted <= after.posted && l.requests <= after.requests
    && (forall k :: 0 <= k < |l.subs| && after.subs[k].Some? && after.subs[k] != l.subs[k] ==> Armed(t, id, es, after.subs[k].value))
    && (forall k :: 0 <= k < |l.subs| && l.subs[k].Some? && l.subs[k].value.ring != id ==> after.subs[k] == l.subs[k])
    && (forall k :: |l.requests| <= k < |after.requests| ==> Made(t, present, id, es, after.requests[k]))
    && forall k :: |l.posted| <= k < |after.posted| ==> Told(t, present, es, after.posted[k])
  }

  /** Whatever was submitted: a subscription that was not there is on this ring, has lost
      nothing yet, and names a source its submitter may read; a request is one an entry
      asked for with the rights to it; a completion is an entry's own refusal. */
  lemma {:induction false} EverythingIsAskedFor(t: Table, present: seq<bool>, id: nat, l: Ledger, es: seq<SqEntry>)
    ensures AllFromEntries(t, present, id, es, l, HandleAll(t, present, id, l, es))
    decreases |es|
  {
    if es != [] {
      var before := es[..|es| - 1];
      EverythingIsAskedFor(t, present, id, l, before);
      OneFromEntry(t, present, id, HandleAll(t, present, id, l, before), es[|es| - 1]);
      FromEntriesMore(t, present, id, before, es[|es| - 1], l, HandleAll(t, present, id, l, before), HandleAll(t, present, id, l, es));
      assert before + [es[|es| - 1]] == es;
    }
  }

  lemma OneFromEntry(t: Table, present: seq<bool>, id: nat, l: Ledger, e: SqEntry)
    ensures AllFromEntries(t, present, id, [e], l, Handle(t, present, id, l, e))
  {
    hide Asks, NotHeld, OutOfRange;
    if Blockwise(e) { BlockEntryExactly(t, present, id, l, e); } else { OtherEntryExactly(t, present, id, l, e); }
  }

  lemma FromEntriesMore(t: Table, present: seq<bool>, id: nat, es: seq<SqEntry>, e: SqEntry, l: Ledger, m: Ledger, n: Ledger)
    requires AllFromEntries(t, present, id, es, l, m) && AllFromEntries(t, present, id, [e], m, n)
    ensures AllFromEntries(t, present, id, es + [e], l, n)
  {
    hide Hears, Asks, Refused;
    forall s | Armed(t, id, es, s) || Armed(t, id, [e], s) ensures Armed(t, id, es + [e], s) {
    }
    forall p | Made(t, present, id, es, p) || Made(t, present, id, [e], p) ensures Made(t, present, id, es + [e], p) {
    }
    forall c | Told(t, present, es, c) || Told(t, present, [e], c) ensures Told(t, present, es + [e], c) {
    }
  }

  /** A subscription that stands goes on standing, in its place, until its own key is
      cancelled. */
  lemma {:induction false} SubscriptionStands(t: Table, present: seq<bool>, id: nat, l: Ledger, es: seq<SqEntry>, k: nat)
    requires k < |l.subs| && l.subs[k].Some?
    requires forall i :: 0 <= i < |es| && es[i].op == OP_CANCEL ==> !HasKey(l.subs[k], id, es[i].userData)
    ensures |HandleAll(t, present, id, l, es).subs| == |l.subs| && HandleAll(t, present, id, l, es).subs[k] == l.subs[k]
    decreases |es|
  {
    if es != [] {
      SubscriptionStands(t, present, id, l, es[..|es| - 1], k);
      var m, e := HandleAll(t, present, id, l, es[..|es| - 1]), es[|es| - 1];
      if Blockwise(e) { BlockEntryExactly(t, present, id, m, e); } else { OtherEntryExactly(t, present, id, m, e); }
    }
  }
}
