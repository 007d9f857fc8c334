/** Whole runs of events, block completions and reads: the table of rings does what a
    plain board of queues does, and a subscription's reader gets the events of its
    source that found room, in order, and learns where some were lost
    (kernel/src/rings.rs). */
module EventRuns {
  import opened Prelude
  import opened RingQueues
  import opened Rings
  import opened RingTables
  import opened EventStreams

  datatype Traffic = Event(source: nat, event: nat) | Block(to: nat, done: Completion) | Read(ring: nat)

  // ----- the plain board of queues -----

  /** The rings, the subscriptions, and what each subscription was offered. */
  datatype Desk = Desk(seats: Seats, subs: Subs, streams: seq<seq<Delivery>>)

  type Board = b: Desk | |b.streams| == |b.subs| witness Desk([], [], [])

  function SeatsAfter(seats: Seats, subs: Subs, source: nat, event: nat): Seats {
    var admitted := Admits(seats, subs, source, event, |subs|);
    seq(|seats|, r requires 0 <= r < |seats| => Reached(seats[r], Routed(subs, admitted, source, event, r, |subs|)))
  }

  function SubsAfter(seats: Seats, subs: Subs, source: nat, event: nat): Subs {
    var admitted := Admits(seats, subs, source, event, |subs|);
    seq(|subs|, i requires 0 <= i < |subs| => Counted(subs[i], source, admitted[i]))
  }

  /** One event, offered to every subscription on its source. */
  function Delivered(b: Board, source: nat, event: nat): Board {
    var admitted := Admits(b.seats, b.subs, source, event, |b.subs|);
    Desk(SeatsAfter(b.seats, b.subs, source, event), SubsAfter(b.seats, b.subs, source, event),
         seq(|b.subs|, i requires 0 <= i < |b.subs| => Logged(b.streams[i], b.subs[i], source, event, admitted[i])))
  }

  predicate Live(b: Board, ring: nat) {
    ring < |b.seats| && b.seats[ring].Some?
  }

  function Turned(b: Board, op: Traffic): Board {
    match op
    case Event(source, event) => Delivered(b, source, event)
    case Block(ring, c) => if ring < |b.seats| then b.(seats := b.seats[ring := Reached(b.seats[ring], [c])]) else b
    case Read(ring) => if Live(b, ring) then b.(seats := b.seats[ring := Some(AfterRead(b.seats[ring].value))]) else b
  }

  /** What the operation hands to the reader of `ring`. */
  function Taken(b: Board, op: Traffic, ring: nat): seq<Completion> {
    if op == Read(ring) && Live(b, ring) && NextRead(b.seats[ring].value).Some?
    then [NextRead(b.seats[ring].value).value] else []
  }

  /** The board after a run, and everything the reader of `ring` was handed. */
  function Replay(b: Board, ops: seq<Traffic>, ring: nat): (Board, seq<Completion>) {
    if ops == [] then (b, [])
    else
      var n := |ops| - 1;
      var (was, got) := Replay(b, ops[..n], ring);
      (Turned(was, ops[n]), got + Taken(was, ops[n], ring))
  }

  lemma ReplayMore(b: Board, ops: seq<Traffic>, op: Traffic, ring: nat)
    ensures var (was, got) := Replay(b, ops, ring);
      Replay(b, ops + [op], ring) == (Turned(was, op), got + Taken(was, op, ring))
  {
    assert (ops + [op])[..|ops|] == ops;
  }

  // ----- the table does what the board does -----

  ghost function BoardOf(tab: RingTable): Board
    requires tab.RingsOk() && |tab.streams| == tab.subs.Length
    reads tab, tab.rings, tab.subs, tab.Repr()
  {
    Desk(tab.View(), tab.subs[..], tab.streams)
  }

  lemma ValidFits(tab: RingTable)
    requires tab.Valid()
    ensures tab.RingsOk() && tab.subs.Length == |tab.streams| == MAX_SUBS && |tab.View()| == MAX_RINGS
  {
  }

  method Hear(tab: RingTable, source: nat, event: nat)
    requires tab.Valid()
    modifies tab.Repr()
    ensures tab.Valid() && tab.Repr() == old(tab.Repr())
    ensures BoardOf(tab) == Delivered(old(BoardOf(tab)), source, event)
  {
    hide RingTable.RingsOk, RingTable.View, RingTable.Repr, NobodyMissed, Routed, Admits, Reached, Counted, Logged;
    ValidFits(tab);
    var admitted, _ := tab.Deliver(source, event);
    ValidFits(tab);
  }

  method Finish(tab: RingTable, ring: nat, c: Completion)
    requires tab.Valid()
    modifies tab.Repr()
    ensures tab.Valid() && tab.Repr() == old(tab.Repr())
    ensures BoardOf(tab) == Turned(old(BoardOf(tab)), Block(ring, c))
  {
    hide RingTable.RingsOk, RingTable.View, RingTable.Repr, NobodyMissed, Reached, Delivered;
    ValidFits(tab);
    if ring < MAX_RINGS {
      var _ := tab.Complete(ring, c.userData, c.status);
      ValidFits(tab);
      assert tab.View() == old(tab.View())[ring := Reached(old(tab.View())[ring], [c])];
    }
  }

  method TakeOne(tab: RingTable, ring: nat) returns (taken: seq<Completion>)
    requires tab.Valid()
    modifies tab.Repr()
    ensures tab.Valid() && tab.Repr() == old(tab.Repr())
    ensures BoardOf(tab) == Turned(old(BoardOf(tab)), Read(ring)) && taken == Taken(old(BoardOf(tab)), Read(ring), ring)
  {
    hide RingTable.RingsOk, RingTable.Repr, NobodyMissed, NextRead, AfterRead, Delivered;
    ValidFits(tab);
    taken := [];
    if ring < MAX_RINGS && IsLive(tab, ring) {
      var one := tab.ReapFrom(ring);
      ValidFits(tab);
      taken := if one.Some? then [one.value] else [];
    }
  }

  predicate IsLive(tab: RingTable, ring: nat)
    requires tab.RingsOk() && ring < MAX_RINGS
    reads tab, tab.rings, tab.Repr()
    ensures IsLive(tab, ring) <==> tab.View()[ring].Some?
  {
    tab.rings[ring] != null
  }

  /** Any run of events, block completions and reads, seen by one ring's reader. */
  method Watch(tab: RingTable, ring: nat, ops: seq<Traffic>) returns (got: seq<Completion>)
    requires tab.Valid()
    modifies tab.Repr()
    ensures tab.Valid() && tab.Repr() == old(tab.Repr())
    ensures (BoardOf(tab), got) == Replay(old(BoardOf(tab)), ops, ring)
  {
    hide RingTable.RingsOk, RingTable.View, RingTable.Repr, RingTable.Valid, Turned, Taken;
    got := [];
    ValidFits(tab);
    ghost var b := BoardOf(tab);
    for n := 0 to |ops|
      invariant tab.Valid() && tab.Repr() == old(tab.Repr()) && tab.RingsOk() && |tab.streams| == tab.subs.Length
      invariant (BoardOf(tab), got) == Replay(b, ops[..n], ring)
    {
      ReplayMore(b, ops[..n], ops[n], ring);
      assert ops[..n + 1] == ops[..n] + [ops[n]];
      ghost var was := BoardOf(tab);
      assert got + [] == got;
      match ops[n] {
        case Event(source, event) =>
          Hear(tab, source, event);
          EventTurn(was, source, event, ring);
        case Block(to, c) =>
          Finish(tab, to, c);
          BlockTurn(was, to, c, ring);
        case Read(from) =>
          var taken := TakeOne(tab, from);
          ReadTurn(was, from, ring);
          got := got + if from == ring then taken else [];
      }
      ValidFits(tab);
    }
    assert ops[..|ops|] == ops;
  }

  lemma EventTurn(b: Board, source: nat, event: nat, ring: nat)
    ensures Turned(b, Event(source, event)) == Delivered(b, source, event) && Taken(b, Event(source, event), ring) == []
  {
  }

  lemma BlockTurn(b: Board, to: nat, c: Completion, ring: nat)
    ensures Taken(b, Block(to, c), ring) == []
  {
  }

  lemma ReadTurn(b: Board, from: nat, ring: nat)
    ensures from != ring ==> Taken(b, Read(from), ring) == []
  {
  }

  // ----- one subscription's stream -----

  /** The events a run raises on one source, in order. */
  function EventsOn(ops: seq<Traffic>, source: nat): seq<nat> {
    if ops == [] then []
    else
      var before := EventsOn(ops[..|ops| - 1], source);
      var last := ops[|ops| - 1];
      if last.Event? && last.source == source then before + [last.event] else before
  }

  function Offers(log: seq<Delivery>): seq<nat> {
    seq(|log|, k requires 0 <= k < |log| => log[k].event)
  }

  /** The status words posted under one key. */
  function Under(posts: seq<Completion>, userData: nat): seq<nat> {
    if posts == [] then []
    else
      var before := Under(posts[..|posts| - 1], userData);
      var last := posts[|posts| - 1];
      if last.userData == userData then before + [last.status] else before
  }

  lemma {:induction false} UnderAppend(a: seq<Completion>, b: seq<Completion>, userData: nat)
    ensures Under(a + b, userData) == Under(a, userData) + Under(b, userData)
    decreases |b|
  {
    if b == [] {
      assert a + b == a;
    } else {
      UnderAppend(a, b[..|b| - 1], userData);
      assert (a + b)[..|a + b| - 1] == a + b[..|b| - 1];
    }
  }

  /** One event puts at most one completion under a subscription's key: its own. */
  lemma {:induction false} RoutedUnder(subs: Subs, admitted: seq<bool>, source: nat, event: nat, n: nat, i: nat)
    requires n <= |subs| && n <= |admitted| && i < |subs| && subs[i].Some?
    requires forall j :: 0 <= j < |subs| && j != i && subs[j].Some? ==> !SameKey(subs[j].value, subs[i].value)
    ensures Under(Routed(subs, admitted, source, event, subs[i].value.ring, n), subs[i].value.userData)
         == if i < n && Feeds(subs[i], source) && admitted[i] then [Flagged(event, subs[i].value.dropped > 0)] else []
    decreases n
  {
    if n > 0 {
      var s := subs[i].value;
      var before := Routed(subs, admitted, source, event, s.ring, n - 1);
      RoutedUnder(subs, admitted, source, event, n - 1, i);
      var turn := Routed(subs, admitted, source, event, s.ring, n);
      if turn != before { assert turn[..|turn| - 1] == before; }
    }
  }

  /** Subscription `i`, fresh at `start`, after a run: the key it was made under and the
      ring it feeds are unchanged, and its ring has since been sent, under that key,
      exactly what its log says was admitted. */
  ghost predicate Followed(s: Subscription, sub: Option<Subscription>, log: seq<Delivery>, posted: seq<Completion>, start: nat) {
    && sub.Some? && sub.value == s.(dropped := sub.value.dropped) && sub.value.dropped == Losses(log)
    && start <= |posted| && Under(posted[start..], s.userData) == Seen(log)
  }

  lemma FollowedEvent(subs: Subs, i: nat, s: Subscription, log: seq<Delivery>, posted: seq<Completion>, start: nat,
                      admitted: seq<bool>, source: nat, event: nat)
    requires i < |subs| == |admitted| && Followed(s, subs[i], log, posted, start)
    requires forall j :: 0 <= j < |subs| && j != i && subs[j].Some? ==> !SameKey(subs[j].value, subs[i].value)
    ensures Followed(s, Counted(subs[i], source, admitted[i]), Logged(log, subs[i], source, event, admitted[i]),
                     posted + Routed(subs, admitted, source, event, s.ring, |subs|), start)
  {
    var posts := Routed(subs, admitted, source, event, s.ring, |subs|);
    RoutedUnder(subs, admitted, source, event, |subs|, i);
    assert (posted + posts)[start..] == posted[start..] + posts;
    UnderAppend(posted[start..], posts, s.userData);
    SeenStep(log, Delivery(event, admitted[i]));
  }

  /** Nobody else has subscription `i`'s key. */
  ghost predicate KeyIsOwn(b: Board, i: nat) {
    && i < |b.subs| && b.subs[i].Some? && Live(b, b.subs[i].value.ring)
    && forall j :: 0 <= j < |b.subs| && j != i && b.subs[j].Some? ==> !SameKey(b.subs[j].value, b.subs[i].value)
  }

  lemma ValidKeysAreOwn(tab: RingTable, i: nat)
    requires tab.Valid() && i < MAX_SUBS && tab.subs[i].Some?
    ensures tab.subs.Length == |tab.streams| && KeyIsOwn(BoardOf(tab), i)
    ensures tab.subs[i].value.dropped == Losses(tab.streams[i])
  {
  }

  /** The subscription followed so far, with `got` read from its ring since `start`. */
  ghost predicate Following(b: Board, i: nat, s: Subscription, start: nat, got: seq<Completion>) {
    && KeyIsOwn(b, i) && Live(b, s.ring) && b.subs[i].value.ring == s.ring
    && var r := b.seats[s.ring].value;
       && Whole(r) && 0 < r.size < U32 && start <= r.reaped && got == r.posted[start..r.reaped]
       && Followed(s, b.subs[i], b.streams[i], r.posted, start)
  }

  lemma FollowingEvent(b: Board, i: nat, s: Subscription, start: nat, got: seq<Completion>, source: nat, event: nat)
    requires Following(b, i, s, start, got)
    ensures Following(Delivered(b, source, event), i, s, start, got)
    ensures var a := Admits(b.seats, b.subs, source, event, |b.subs|)[i];
      Delivered(b, source, event).streams[i] == if source == s.source then b.streams[i] + [Delivery(event, a)] else b.streams[i]
  {
    hide Followed, Routed, Losses, Seen, Takes, Admits, RoomFor;
    Unfollow(s, b.subs[i], b.streams[i], b.seats[s.ring].value.posted, start);
    var admitted := Admits(b.seats, b.subs, source, event, |b.subs|);
    var posted := b.seats[s.ring].value.posted;
    var posts := Routed(b.subs, admitted, source, event, s.ring, |b.subs|);
    FollowedEvent(b.subs, i, s, b.streams[i], posted, start, admitted, source, event);
    assert posted + [] == posted;
    RoutedFits(b.seats, b.subs, source, event, s.ring, |b.subs|);
    assert (posted + posts)[start..b.seats[s.ring].value.reaped] == got;
    WholeReached(b.seats[s.ring].value, posts);
  }

  lemma Unfollow(s: Subscription, sub: Option<Subscription>, log: seq<Delivery>, posted: seq<Completion>, start: nat)
    requires Followed(s, sub, log, posted, start)
    ensures sub == Some(s.(dropped := Losses(log))) && start <= |posted| && Under(posted[start..], s.userData) == Seen(log)
  {
  }

  lemma WholeReached(r: RingState, posts: seq<Completion>)
    requires Whole(r) && (posts == [] || |r.posted| + |posts| <= r.reaped + r.size)
    ensures Whole(Reached(Some(r), posts).value)
  {
  }

  /** What an event puts into a queue fits there, however many subscriptions lead to
      it. */
  lemma {:induction false} RoutedFits(seats: Seats, subs: Subs, source: nat, event: nat, ring: nat, n: nat)
    requires ring < |seats| && seats[ring].Some? && Whole(seats[ring].value) && seats[ring].value.size < U32 && n <= |subs|
    ensures var r := seats[ring].value;
      |r.posted| + |Routed(subs, Admits(seats, subs, source, event, n), source, event, ring, n)| <= r.reaped + r.size
  {
    if n > 0 {
      RoutedFits(seats, subs, source, event, ring, n - 1);
      var before := Admits(seats, subs, source, event, n - 1);
      RoutedMore(subs, before, Takes(seats, subs, before, source, event, n - 1), source, event, n - 1, ring);
    }
  }

  /** The run leaves room for every block completion on the ring, and none of them uses
      the subscription's key. */
  ghost predicate BlocksAreApart(b: Board, ops: seq<Traffic>, s: Subscription) {
    forall k :: 0 <= k < |ops| && ops[k].Block? && ops[k].to == s.ring ==> BlockIsApart(b, ops, s, k)
  }

  ghost predicate BlockIsApart(b: Board, ops: seq<Traffic>, s: Subscription, k: nat)
    requires k < |ops| && ops[k].Block?
  {
    var now := Replay(b, ops[..k], s.ring).0;
    && ops[k].done.userData != s.userData
    && Live(now, s.ring) && |now.seats[s.ring].value.posted| < now.seats[s.ring].value.reaped + now.seats[s.ring].value.size
  }

  /** A subscription made on an empty queue, after any run with room for its ring's
      block completions: what its owner has read under its key, and what is still
      unread, is exactly the events of its source that were admitted. */
  lemma {:induction false} StreamOverRun(b: Board, i: nat, s: Subscription, ops: seq<Traffic>)
    requires KeyIsOwn(b, i) && b.subs[i] == Some(s) && b.streams[i] == [] && s.dropped == 0
    requires var r := b.seats[s.ring].value; r.reaped == |r.posted| && 0 < r.size < U32
    requires BlocksAreApart(b, ops, s)
    ensures var (now, got) := Replay(b, ops, s.ring);
      && Following(now, i, s, |b.seats[s.ring].value.posted|, got)
      && Offers(now.streams[i]) == EventsOn(ops, s.source)
      && var r := now.seats[s.ring].value; Under(got + r.posted[r.reaped..], s.userData) == Seen(now.streams[i])
    decreases |ops|
  {
    hide Followed, Seen, Losses, SameKey, Following, Turned, Taken, Under, Whole, EventsOn, Offers;
    var start := |b.seats[s.ring].value.posted|;
    if ops == [] {
      assert Offers([]) == EventsOn([], s.source) by { NothingOffered(s.source); }
      StartsFollowed(b, i, s);
    } else {
      var n := |ops| - 1;
      forall k | 0 <= k < n && ops[..n][k].Block? && ops[..n][k].to == s.ring ensures BlockIsApart(b, ops[..n], s, k) {
        assert BlockIsApart(b, ops, s, k) && ops[..n][..k] == ops[..k];
      }
      StreamOverRun(b, i, s, ops[..n]);
      var (was, got) := Replay(b, ops[..n], s.ring);
      if ops[n].Block? && ops[n].to == s.ring { assert BlockIsApart(b, ops, s, n); }
      FollowingLive(was, i, s, start, got);
      FollowingTurn(was, i, s, start, got, ops[n], ops[..n]);
      assert ops == ops[..n] + [ops[n]];
    }
    var (now, got) := Replay(b, ops, s.ring);
    FollowingLive(now, i, s, start, got);
  }

  lemma NothingOffered(source: nat)
    ensures Offers([]) == EventsOn([], source)
  {
  }

  lemma FollowingLive(b: Board, i: nat, s: Subscription, start: nat, got: seq<Completion>)
    requires Following(b, i, s, start, got)
    ensures i < |b.subs| && Live(b, s.ring)
    ensures var r := b.seats[s.ring].value;
      r.reaped <= |r.posted| && Under(got + r.posted[r.reaped..], s.userData) == Seen(b.streams[i])
  {
    hide Followed, Under, Seen;
    var r := b.seats[s.ring].value;
    Unfollow(s, b.subs[i], b.streams[i], r.posted, start);
    assert r.posted[start..] == got + r.posted[r.reaped..];
  }

  lemma StartsFollowed(b: Board, i: nat, s: Subscription)
    requires KeyIsOwn(b, i) && b.subs[i] == Some(s) && b.streams[i] == [] && s.dropped == 0
    requires var r := b.seats[s.ring].value; r.reaped == |r.posted| && 0 < r.size < U32
    ensures Following(b, i, s, |b.seats[s.ring].value.posted|, [])
  {
  }

  lemma FollowingTurn(b: Board, i: nat, s: Subscription, start: nat, got: seq<Completion>, op: Traffic, ops: seq<Traffic>)
    requires Following(b, i, s, start, got) && Offers(b.streams[i]) == EventsOn(ops, s.source)
    requires op.Block? && op.to == s.ring ==>
      var r := b.seats[s.ring].value; op.done.userData != s.userData && |r.posted| < r.reaped + r.size
    ensures Following(Turned(b, op), i, s, start, got + Taken(b, op, s.ring))
    ensures Offers(Turned(b, op).streams[i]) == EventsOn(ops + [op], s.source)
  {
    hide Seen, Losses, Standing, Followed, Whole, Delivered;
    match op {
      case Event(source, event) =>
        FollowingEvent(b, i, s, start, got, source, event);
        var a := Admits(b.seats, b.subs, source, event, |b.subs|)[i];
        OffersMore(ops, op, b.streams[i], s.source, a);
        assert got + [] == got;
      case Block(to, c) =>
        OffersMore(ops, op, b.streams[i], s.source, true);
        FollowingBlock(b, i, s, start, got, to, c);
      case Read(ring) =>
        OffersMore(ops, op, b.streams[i], s.source, true);
        FollowingRead(b, i, s, start, got, ring);
    }
  }

  lemma FollowingBlock(b: Board, i: nat, s: Subscription, start: nat, got: seq<Completion>, to: nat, c: Completion)
    requires Following(b, i, s, start, got)
    requires to == s.ring ==> var r := b.seats[s.ring].value; c.userData != s.userData && |r.posted| < r.reaped + r.size
    ensures Following(Turned(b, Block(to, c)), i, s, start, got)
    ensures Turned(b, Block(to, c)).streams == b.streams
  {
    hide Seen, Losses, Standing;
    if to == s.ring {
      var r := b.seats[s.ring].value;
      assert (r.posted + [c])[start..] == r.posted[start..] + [c];
      UnderAppend(r.posted[start..], [c], s.userData);
      assert Under([c], s.userData) == [];
      assert (r.posted + [c])[start..r.reaped] == got;
    }
  }

  lemma FollowingRead(b: Board, i: nat, s: Subscription, start: nat, got: seq<Completion>, ring: nat)
    requires Following(b, i, s, start, got)
    ensures Following(Turned(b, Read(ring)), i, s, start, got + Taken(b, Read(ring), s.ring))
    ensures Turned(b, Read(ring)).streams == b.streams
  {
    hide Seen, Losses, Standing;
    var r := b.seats[s.ring].value;
    if ring == s.ring && r.reaped < |r.posted| {
      assert Standing(r.reaped, |r.posted|, r.size) == r.reaped;
      assert r.posted[start..r.reaped + 1] == r.posted[start..r.reaped] + [r.posted[r.reaped]];
    }
  }

  lemma OffersMore(ops: seq<Traffic>, op: Traffic, log: seq<Delivery>, source: nat, admitted: bool)
    requires Offers(log) == EventsOn(ops, source)
    ensures EventsOn(ops + [op], source)
         == if op.Event? && op.source == source then Offers(log + [Delivery(op.event, admitted)]) else Offers(log)
  {
    assert (ops + [op])[..|ops|] == ops;
    if op.Event? { assert Offers(log + [Delivery(op.event, admitted)]) == Offers(log) + [op.event]; }
  }

  // ----- who gets an event -----

  lemma {:induction false} AdmitsPrefix(was: Seats, subs: Subs, source: nat, event: nat, i: nat, n: nat)
    requires i <= n <= |subs|
    ensures Admits(was, subs, source, event, n)[..i] == Admits(was, subs, source, event, i)
    decreases n
  {
    if i < n {
      AdmitsPrefix(was, subs, source, event, i, n - 1);
      var before := Admits(was, subs, source, event, n - 1);
      assert Admits(was, subs, source, event, n)[..i] == before[..i];
    }
  }

  lemma TurnDecides(was: Seats, subs: Subs, source: nat, event: nat, i: nat)
    requires i < |subs|
    ensures Admits(was, subs, source, event, |subs|)[i] == Takes(was, subs, Admits(was, subs, source, event, i), source, event, i)
  {
    hide Takes;
    AdmitsPrefix(was, subs, source, event, i + 1, |subs|);
    var all := Admits(was, subs, source, event, |subs|);
    assert all[i] == all[..i + 1][i];
  }

  lemma TakesIsRoom(was: Seats, subs: Subs, admitted: seq<bool>, source: nat, event: nat, i: nat)
    requires i < |subs| && i <= |admitted| && Feeds(subs[i], source)
    requires subs[i].value.ring < |was| && was[subs[i].value.ring].Some?
    ensures Takes(was, subs, admitted, source, event, i)
         == RoomFor(was[subs[i].value.ring].value, |Routed(subs, admitted, source, event, subs[i].value.ring, i)|)
  {
  }

  /** A subscription on the event's source is given the event if and only if its queue
      has room left after the subscriptions before it; where none of those leads to the
      same queue, if and only if fewer are unread than the queue holds. */
  lemma GivenIffRoom(b: Board, i: nat, source: nat, event: nat)
    requires i < |b.subs| && Feeds(b.subs[i], source) && Live(b, b.subs[i].value.ring)
    requires Whole(b.seats[b.subs[i].value.ring].value) && b.seats[b.subs[i].value.ring].value.size < U32
    ensures var ring := b.subs[i].value.ring;
      var r := b.seats[ring].value;
      var first := Routed(b.subs, Admits(b.seats, b.subs, source, event, i), source, event, ring, i);
      && Delivered(b, source, event).streams[i] == b.streams[i] + [Delivery(event, |r.posted| + |first| < r.reaped + r.size)]
      && ((forall j :: 0 <= j < i && Feeds(b.subs[j], source) ==> b.subs[j].value.ring != ring) ==> first == [])
  {
    hide Admits, Routed, Reached, Counted, Takes;
    var ring := b.subs[i].value.ring;
    TurnDecides(b.seats, b.subs, source, event, i);
    TakesIsRoom(b.seats, b.subs, Admits(b.seats, b.subs, source, event, i), source, event, i);
    RoutedFits(b.seats, b.subs, source, event, ring, i);
    if forall j :: 0 <= j < i && Feeds(b.subs[j], source) ==> b.subs[j].value.ring != ring {
      NothingRouted(b.subs, Admits(b.seats, b.subs, source, event, i), source, event, ring, i);
    }
  }

  lemma {:induction false} NothingRouted(subs: Subs, admitted: seq<bool>, source: nat, event: nat, ring: nat, n: nat)
    requires n <= |subs| && n <= |admitted|
    requires forall j :: 0 <= j < n && Feeds(subs[j], source) ==> subs[j].value.ring != ring
    ensures Routed(subs, admitted, source, event, ring, n) == []
  {
    if n > 0 { NothingRouted(subs, admitted, source, event, ring, n - 1); }
  }
}
