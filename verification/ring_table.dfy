/** The kernel's table of rings, the event subscriptions that feed them, and the
    processes parked in `ring_wait` (kernel/src/rings.rs). */
module RingTables {
  import opened Prelude
  import opened WaitQueues
  import opened RingQueues
  import opened Rings
  import opened EventStreams

  const MAX_RINGS: nat := 8
  const MAX_SUBS: nat := 32

  datatype Subscription = Subscription(source: nat, ring: nat, userData: nat, dropped: nat)

  /** What the table knows of one live ring. */
  datatype RingState = RingState(owner: nat, waiting: bool, size: nat, posted: seq<Completion>, reaped: nat, sq: SqState)

  /** The submission half: the kernel's head, the published tail, and the entries. */
  datatype SqState = SqState(head: Index, tail: Index, slots: seq<SqEntry>, pushed: seq<SqEntry>, drained: nat)

  function NewSq(entries: nat): SqState {
    SqState(0, 0, seq(entries, _ => SqEntry(0, 0, 0, 0, 0, 0)), [], 0)
  }

  type Seats = seq<Option<RingState>>

  /** There is room for one more event once `extra` more have been posted: the test on
      the 32-bit indices. */
  predicate RoomFor(r: RingState, extra: nat) {
    (|r.posted| + extra - r.reaped) % U32 < r.size
  }

  /** No unreaped completion has been overwritten. */
  predicate Whole(r: RingState) {
    r.reaped <= |r.posted| <= r.reaped + r.size
  }

  /** What a reader of this ring is given next. */
  function NextRead(r: RingState): Option<Completion> {
    if r.size > 0 && r.reaped < |r.posted| && (|r.posted| - r.reaped) % U32 != 0
    then Some(r.posted[Standing(r.reaped, |r.posted|, r.size)]) else None
  }

  function AfterRead(r: RingState): RingState {
    if NextRead(r).Some? then r.(reaped := r.reaped + 1) else r
  }

  predicate WaitingAt(seats: Seats, i: nat) {
    i < |seats| && seats[i].Some? && seats[i].value.waiting
  }

  /** A parked process is parked on exactly one ring, whose queue is empty; `woken`
      are those whose wake-up has been decided and not yet carried out. */
  ghost predicate NobodyMissed(seats: Seats, parked: seq<bool>, woken: set<nat>) {
    && (forall i: nat :: WaitingAt(seats, i) ==>
         var r := seats[i].value; r.owner < |parked| && parked[r.owner] && r.owner !in woken && r.reaped == |r.posted|)
    && (forall i: nat, j: nat :: WaitingAt(seats, i) && WaitingAt(seats, j) && seats[i].value.owner == seats[j].value.owner ==> i == j)
    && (forall p: nat :: p < |parked| && parked[p] ==> p in woken || WaitsSomewhere(seats, p))
    && (forall p :: p in woken ==> p < |parked| && parked[p])
  }

  ghost predicate WaitsSomewhere(seats: Seats, p: nat) {
    exists i: nat :: WaitingAt(seats, i) && seats[i].value.owner == p
  }

  /** A post to a ring: its owner, if parked on it, is on the way to being woken. */
  lemma PostMissesNobody(seats: Seats, parked: seq<bool>, woken: set<nat>, i: nat, posted: seq<Completion>)
    requires NobodyMissed(seats, parked, woken) && i < |seats| && seats[i].Some?
    ensures var r := seats[i].value;
            NobodyMissed(seats[i := Some(r.(waiting := false, posted := posted))], parked,
                         if r.waiting then woken + {r.owner} else woken)
  {
    var r := seats[i].value;
    var after := seats[i := Some(r.(waiting := false, posted := posted))];
    forall p: nat | p < |parked| && parked[p] && p !in woken && (r.waiting ==> p != r.owner)
      ensures WaitsSomewhere(after, p)
    {
      var j: nat :| WaitingAt(seats, j) && seats[j].value.owner == p;
      assert j != i;
      assert WaitingAt(after, j);
    }
    if r.waiting { assert WaitingAt(seats, i); }
  }

  /** Carrying out one decided wake-up. */
  lemma WakeMissesNobody(seats: Seats, parked: seq<bool>, woken: set<nat>, p: nat)
    requires NobodyMissed(seats, parked, woken) && p in woken
    ensures NobodyMissed(seats, parked[p := false], woken - {p})
  {
  }

  /** A running owner that finds its queue empty parks on it. */
  lemma ParkMissesNobody(seats: Seats, parked: seq<bool>, i: nat)
    requires NobodyMissed(seats, parked, {}) && i < |seats| && seats[i].Some?
    requires var r := seats[i].value; r.owner < |parked| && !parked[r.owner] && r.reaped == |r.posted|
    ensures NobodyMissed(seats[i := Some(seats[i].value.(waiting := true))], parked[seats[i].value.owner := true], {})
  {
    var r := seats[i].value;
    var after, parked' := seats[i := Some(r.(waiting := true))], parked[r.owner := true];
    assert WaitingAt(after, i);
    forall p: nat | p < |parked'| && parked'[p] ensures WaitsSomewhere(after, p) {
      if p != r.owner {
        var j: nat :| WaitingAt(seats, j) && seats[j].value.owner == p;
        assert WaitingAt(after, j);
      }
    }
  }

  // ----- subscriptions -----

  type Subs = seq<Option<Subscription>>

  predicate Feeds(s: Option<Subscription>, source: nat) {
    s.Some? && s.value.source == source
  }

  predicate Keyed(s: Option<Subscription>, ring: nat, userData: nat) {
    s.Some? && s.value.ring == ring && s.value.userData == userData
  }

  function FindSub(subs: Subs, ring: nat, userData: nat, from: nat := 0): (r: Option<nat>)
    requires from <= |subs|
    ensures r.Some? ==> from <= r.value < |subs| && Keyed(subs[r.value], ring, userData)
    ensures forall i :: from <= i < (if r.Some? then r.value else |subs|) ==> !Keyed(subs[i], ring, userData)
    decreases |subs| - from
  {
    if from == |subs| then None else if Keyed(subs[from], ring, userData) then Some(from) else FindSub(subs, ring, userData, from + 1)
  }

  function FreeSub(subs: Subs, from: nat := 0): (r: Option<nat>)
    requires from <= |subs|
    ensures r.Some? ==> from <= r.value < |subs| && subs[r.value].None?
    ensures forall i :: from <= i < (if r.Some? then r.value else |subs|) ==> subs[i].Some?
    decreases |subs| - from
  {
    if from == |subs| then None else if subs[from].None? then Some(from) else FreeSub(subs, from + 1)
  }

  /** What one event posts to ring `ring`, in table order, from the first `n`
      subscriptions; `admitted` says which posts found room. */
  function Routed(subs: Subs, admitted: seq<bool>, source: nat, event: nat, ring: nat, n: nat): seq<Completion>
    requires n <= |subs| && n <= |admitted|
  {
    if n == 0 then []
    else
      var before := Routed(subs, admitted, source, event, ring, n - 1);
      var s := subs[n - 1];
      if Feeds(s, source) && s.value.ring == ring && admitted[n - 1]
      then before + [Completion(s.value.userData, Flagged(event, s.value.dropped > 0))]
      else before
  }

  lemma {:induction false} RoutedPrefix(subs: Subs, a: seq<bool>, b: seq<bool>, source: nat, event: nat, ring: nat, n: nat)
    requires n <= |subs| && n <= |a| && n <= |b| && a[..n] == b[..n]
    ensures Routed(subs, a, source, event, ring, n) == Routed(subs, b, source, event, ring, n)
  {
    if n > 0 {
      assert a[..n - 1] == a[..n][..n - 1] && b[..n - 1] == b[..n][..n - 1];
      assert a[n - 1] == a[..n][n - 1] && b[n - 1] == b[..n][n - 1];
      RoutedPrefix(subs, a, b, source, event, ring, n - 1);
    }
  }

  function Offered(r: RingState, s: Subscription, event: nat, admitted: bool): RingState {
    if admitted then r.(waiting := false, posted := r.posted + [Completion(s.userData, Flagged(event, s.dropped > 0))]) else r
  }

  /** A subscription after one event on `source` was admitted for it or not. */
  function Counted(s: Option<Subscription>, source: nat, admitted: bool): Option<Subscription> {
    if Feeds(s, source) then Some(s.value.(dropped := if admitted then 0 else Saturated(s.value.dropped))) else s
  }

  function Logged(log: seq<Delivery>, s: Option<Subscription>, source: nat, event: nat, admitted: bool): seq<Delivery> {
    if Feeds(s, source) then log + [Delivery(event, admitted)] else log
  }

  /** A ring after these completions were appended to its queue. */
  function Reached(r: Option<RingState>, posts: seq<Completion>): Option<RingState> {
    if r.None? || posts == [] then r else Some(r.value.(waiting := false, posted := r.value.posted + posts))
  }

  function Woken(wakes: seq<nat>): set<nat> {
    set w | w in wakes
  }

  predicate Distinct(wakes: seq<nat>) {
    forall i, j :: 0 <= i < j < |wakes| ==> wakes[i] != wakes[j]
  }

  function TurnFor(s: Option<Subscription>, ok: bool, source: nat, event: nat, ring: nat): seq<Completion> {
    if Feeds(s, source) && s.value.ring == ring && ok
    then [Completion(s.value.userData, Flagged(event, s.value.dropped > 0))] else []
  }

  lemma SubRings(subs: Subs, streams: seq<seq<Delivery>>, seats: Seats, i: nat)
    requires SubsFine(subs, streams, seats) && i < |subs| && subs[i].Some?
    ensures subs[i].value.ring < |seats| && seats[subs[i].value.ring].Some?
  {
  }

  /** One more subscription's turn. */
  lemma RoutedMore(subs: Subs, admitted: seq<bool>, ok: bool, source: nat, event: nat, n: nat, r: nat)
    requires n < |subs| && |admitted| == n
    ensures Routed(subs, admitted + [ok], source, event, r, n + 1)
         == Routed(subs, admitted, source, event, r, n) + TurnFor(subs[n], ok, source, event, r)
  {
    assert (admitted + [ok])[..n] == admitted[..n];
    RoutedPrefix(subs, admitted + [ok], admitted, source, event, r, n);
  }

  /** After the first `n` turns: every queue is extended by what was routed to it, and
      the owner of every parked ring reached so far is due a wake-up. */
  ghost predicate Underway(was: Seats, now: Seats, subs: Subs, admitted: seq<bool>, source: nat, event: nat, n: nat, wakes: seq<nat>) {
    && n == |admitted| <= |subs| && |now| == |was|
    && (forall r {:trigger now[r]} :: 0 <= r < |was| ==> now[r] == Reached(was[r], Routed(subs, admitted, source, event, r, n)))
    && (forall r :: 0 <= r < |was| && WaitingAt(was, r) && Routed(subs, admitted, source, event, r, n) != [] ==> was[r].value.owner in wakes)
    && (forall i {:trigger subs[i]} :: 0 <= i < n && Feeds(subs[i], source) && WaitingAt(was, subs[i].value.ring) ==>
          was[subs[i].value.ring].value.owner in wakes)
  }

  lemma ReachedTwice(r: Option<RingState>, posts: seq<Completion>, more: seq<Completion>)
    ensures Reached(Reached(r, posts), more) == Reached(r, posts + more)
  {
    if posts == [] {
      assert posts + more == more;
    } else if more == [] {
      assert posts + more == posts;
    } else if r.Some? {
      assert r.value.posted + posts + more == r.value.posted + (posts + more);
    }
  }

  lemma UnderwayMore(was: Seats, now: Seats, subs: Subs, admitted: seq<bool>, source: nat, event: nat, n: nat, wakes: seq<nat>,
                     ok: bool, wake: Option<nat>, after: Seats)
    requires Underway(was, now, subs, admitted, source, event, n, wakes) && n < |subs|
    requires !Feeds(subs[n], source) ==> after == now && wake == None
    requires Feeds(subs[n], source) ==>
      var s := subs[n].value;
      && s.ring < |now| && now[s.ring].Some?
      && var r := now[s.ring].value;
         after == now[s.ring := Some(Offered(r, s, event, ok))] && wake == (if ok && r.waiting then Some(r.owner) else None)
         && (r.waiting ==> ok)
    ensures Underway(was, after, subs, admitted + [ok], source, event, n + 1, if wake.Some? then wakes + [wake.value] else wakes)
  {
    forall r | 0 <= r < |was|
      ensures after[r] == Reached(was[r], Routed(subs, admitted + [ok], source, event, r, n + 1))
      ensures WaitingAt(was, r) && Routed(subs, admitted + [ok], source, event, r, n + 1) != [] ==>
        was[r].value.owner in if wake.Some? then wakes + [wake.value] else wakes
    {
      RoutedMore(subs, admitted, ok, source, event, n, r);
      var posts, turn := Routed(subs, admitted, source, event, r, n), TurnFor(subs[n], ok, source, event, r);
      ReachedTwice(was[r], posts, turn);
      assert now[r] == Reached(was[r], Routed(subs, admitted, source, event, r, n));
    }
  }

  /** Subscription `i`'s turn: an event is refused exactly when the queue it is for,
      with what this delivery has already put there, is full. */
  predicate Takes(was: Seats, subs: Subs, admitted: seq<bool>, source: nat, event: nat, i: nat)
    requires i < |subs| && i <= |admitted|
  {
    Feeds(subs[i], source) && subs[i].value.ring < |was| && was[subs[i].value.ring].Some? ==>
      RoomFor(was[subs[i].value.ring].value, |Routed(subs, admitted, source, event, subs[i].value.ring, i)|)
  }

  /** Which of the first `n` subscriptions get the event. */
  function Admits(was: Seats, subs: Subs, source: nat, event: nat, n: nat): (admitted: seq<bool>)
    requires n <= |subs|
    ensures |admitted| == n
  {
    if n == 0 then []
    else
      var before := Admits(was, subs, source, event, n - 1);
      before + [Takes(was, subs, before, source, event, n - 1)]
  }

  lemma AdmitsMore(was: Seats, now: Seats, subs: Subs, admitted: seq<bool>, source: nat, event: nat, n: nat, wakes: seq<nat>, ok: bool)
    requires n < |subs| && admitted == Admits(was, subs, source, event, n)
    requires Underway(was, now, subs, admitted, source, event, n, wakes)
    requires !Feeds(subs[n], source) ==> ok
    requires Feeds(subs[n], source) ==>
      subs[n].value.ring < |now| && now[subs[n].value.ring].Some? && (ok <==> RoomFor(now[subs[n].value.ring].value, 0))
    ensures admitted + [ok] == Admits(was, subs, source, event, n + 1)
  {
    if Feeds(subs[n], source) {
      var ring := subs[n].value.ring;
      assert now[ring] == Reached(was[ring], Routed(subs, admitted, source, event, ring, n));
    }
  }

  predicate SameKey(a: Subscription, b: Subscription) {
    a.ring == b.ring && a.userData == b.userData
  }

  /** Subscriptions feed live rings under distinct keys, and count their losses. */
  ghost predicate SubsFine(subs: Subs, streams: seq<seq<Delivery>>, seats: Seats) {
    && |streams| == |subs|
    && (forall i {:trigger subs[i]} :: 0 <= i < |subs| && subs[i].Some? ==>
          && subs[i].value.ring < |seats| && seats[subs[i].value.ring].Some?
          && subs[i].value.dropped == Losses(streams[i]))
    && forall i, j :: 0 <= i < j < |subs| && subs[i].Some? && subs[j].Some? ==> !SameKey(subs[i].value, subs[j].value)
  }

  lemma OfferedIsFine(subs: Subs, streams: seq<seq<Delivery>>, seats: Seats, i: nat, event: nat, admitted: bool, r: RingState)
    requires SubsFine(subs, streams, seats) && i < |subs| && subs[i].Some?
    ensures var s := subs[i].value;
            && s.ring < |seats|
            && SubsFine(subs[i := Some(s.(dropped := if admitted then 0 else Saturated(s.dropped)))],
                        streams[i := streams[i] + [Delivery(event, admitted)]], seats[s.ring := Some(r)])
  {
    SeenStep(streams[i], Delivery(event, admitted));
  }

  lemma NoWakes()
    ensures Woken([]) == {} && Distinct([])
  {
  }

  lemma UnderwayNone(was: Seats, subs: Subs, source: nat, event: nat)
    ensures Underway(was, was, subs, [], source, event, 0, [])
  {
  }

  lemma AllWereParked(seats: Seats, parked: seq<bool>, wakes: seq<nat>)
    requires NobodyMissed(seats, parked, Woken(wakes))
    ensures forall w :: w in wakes ==> w < |parked| && parked[w]
  {
    assert forall w :: w in wakes ==> w in Woken(wakes);
  }

  lemma SeatKeepsSubs(subs: Subs, streams: seq<seq<Delivery>>, seats: Seats, id: nat, r: RingState)
    requires SubsFine(subs, streams, seats) && id < |seats|
    ensures SubsFine(subs, streams, seats[id := Some(r)])
  {
  }

  predicate OnRing(s: Option<Subscription>, id: nat) {
    s.Some? && s.value.ring == id
  }

  ghost function OffRing(subs: Subs, id: nat): Subs {
    seq(|subs|, i requires 0 <= i < |subs| => if OnRing(subs[i], id) then None else subs[i])
  }

  lemma ReleasedIsFine(subs: Subs, streams: seq<seq<Delivery>>, seats: Seats, parked: seq<bool>, id: nat)
    requires SubsFine(subs, streams, seats) && NobodyMissed(seats, parked, {}) && id < |seats|
    ensures SubsFine(OffRing(subs, id), streams, seats[id := None])
    ensures NobodyMissed(seats[id := None], parked, {}) <==> !WaitingAt(seats, id)
  {
    var after := seats[id := None];
    if WaitingAt(seats, id) {
      var p := seats[id].value.owner;
      forall j: nat ensures !(WaitingAt(after, j) && after[j].value.owner == p) {
        if WaitingAt(after, j) { assert WaitingAt(seats, j); }
      }
      assert !WaitsSomewhere(after, p);
    } else {
      forall p: nat | p < |parked| && parked[p] ensures WaitsSomewhere(after, p) {
        var j: nat :| WaitingAt(seats, j) && seats[j].value.owner == p;
        assert WaitingAt(after, j);
      }
      assert forall j: nat :: WaitingAt(after, j) ==> WaitingAt(seats, j);
    }
  }

  lemma RegisteredIsFine(subs: Subs, streams: seq<seq<Delivery>>, seats: Seats, parked: seq<bool>, id: nat, r: RingState)
    requires SubsFine(subs, streams, seats) && NobodyMissed(seats, parked, {}) && id < |seats| && seats[id].None? && !r.waiting
    ensures SubsFine(subs, streams, seats[id := Some(r)]) && NobodyMissed(seats[id := Some(r)], parked, {})
  {
    var after := seats[id := Some(r)];
    forall p: nat | p < |parked| && parked[p] ensures WaitsSomewhere(after, p) {
      var j: nat :| WaitingAt(seats, j) && seats[j].value.owner == p;
      assert WaitingAt(after, j);
    }
  }

  lemma {:induction false} FindSubIs(subs: Subs, ring: nat, userData: nat, from: nat, i: nat)
    requires from <= i < |subs| && Keyed(subs[i], ring, userData)
    requires forall k :: from <= k < i ==> !Keyed(subs[k], ring, userData)
    ensures FindSub(subs, ring, userData, from) == Some(i)
    decreases i - from
  {
    if from < i { FindSubIs(subs, ring, userData, from + 1, i); }
  }

  lemma {:induction false} FreeSubIs(subs: Subs, from: nat, i: nat)
    requires from <= i < |subs| && subs[i].None?
    requires forall k :: from <= k < i ==> subs[k].Some?
    ensures FreeSub(subs, from) == Some(i)
    decreases i - from
  {
    if from < i { FreeSubIs(subs, from + 1, i); }
  }

  lemma SubscribedIsFine(subs: Subs, streams: seq<seq<Delivery>>, seats: Seats, n: nat, s: Subscription)
    requires SubsFine(subs, streams, seats) && n < |subs| && s.ring < |seats| && seats[s.ring].Some? && s.dropped == 0
    requires FindSub(subs, s.ring, s.userData).None?
    ensures SubsFine(subs[n := Some(s)], streams[n := []], seats)
  {
    forall i | 0 <= i < |subs| && subs[i].Some? ensures !SameKey(subs[i].value, s) && !SameKey(s, subs[i].value) {
      assert !Keyed(subs[i], s.ring, s.userData);
    }
  }

  lemma CancelledIsFine(subs: Subs, streams: seq<seq<Delivery>>, seats: Seats, n: nat)
    requires SubsFine(subs, streams, seats) && n < |subs|
    ensures SubsFine(subs[n := None], streams[n := streams[n]], seats)
  {
  }

  /** A ring whose owner is running is not waited on. */
  lemma NotWaiting(seats: Seats, parked: seq<bool>, id: nat)
    requires NobodyMissed(seats, parked, {}) && id < |seats| && seats[id].Some?
    requires seats[id].value.owner < |parked| && !parked[seats[id].value.owner]
    ensures !seats[id].value.waiting
  {
    assert WaitingAt(seats, id) <==> seats[id].value.waiting;
  }

  lemma CompletionMissesNobody(before: Seats, after: Seats, parked: seq<bool>, subs: Subs, streams: seq<seq<Delivery>>,
                               id: nat, c: Completion, wake: Option<nat>)
    requires NobodyMissed(before, parked, {}) && SubsFine(subs, streams, before) && id < |before|
    requires before[id].None? ==> after == before && wake == None
    requires before[id].Some? ==>
      var r := before[id].value;
      after == before[id := Some(r.(waiting := false, posted := r.posted + [c]))] && wake == (if r.waiting then Some(r.owner) else None)
    ensures SubsFine(subs, streams, after) && NobodyMissed(after, parked, if wake.Some? then Woken([wake.value]) else {})
    ensures wake.Some? ==> wake.value < |parked| && parked[wake.value]
  {
    if before[id].Some? {
      var r := before[id].value;
      PostMissesNobody(before, parked, {}, id, r.posted + [c]);
      SeatKeepsSubs(subs, streams, before, id, r.(waiting := false, posted := r.posted + [c]));
      if r.waiting {
        assert WaitingAt(before, id);
        assert Woken([r.owner]) == {} + {r.owner};
      }
    }
  }

  /** Reading a queue wakes nobody and parks nobody; where somebody is parked there is
      nothing to read. */
  lemma ReapMissesNobody(before: Seats, after: Seats, parked: seq<bool>, subs: Subs, streams: seq<seq<Delivery>>, id: nat)
    requires NobodyMissed(before, parked, {}) && SubsFine(subs, streams, before) && id < |before| && before[id].Some?
    requires exists k: nat :: after == before[id := Some(before[id].value.(reaped := k))]
                           && (before[id].value.reaped == |before[id].value.posted| ==> k == before[id].value.reaped)
    ensures NobodyMissed(after, parked, {}) && SubsFine(subs, streams, after)
  {
    forall p: nat | p < |parked| && parked[p] ensures WaitsSomewhere(after, p) {
      var j: nat :| WaitingAt(before, j) && before[j].value.owner == p;
      assert WaitingAt(after, j);
    }
    if WaitingAt(before, id) { assert after == before; }
    assert forall i: nat :: WaitingAt(after, i) ==> WaitingAt(before, i);
  }

  lemma HeadIsDue(seats: Seats, parked: seq<bool>, wakes: seq<nat>, k: nat)
    requires k < |wakes| && Distinct(wakes) && NobodyMissed(seats, parked, Woken(wakes[k..]))
    ensures wakes[k] < |parked| && parked[wakes[k]]
    ensures NobodyMissed(seats, parked[wakes[k] := false], Woken(wakes[k + 1..]))
  {
    assert wakes[k..][0] == wakes[k];
    assert wakes[k] in Woken(wakes[k..]);
    WakeMissesNobody(seats, parked, Woken(wakes[k..]), wakes[k]);
    forall w ensures w in Woken(wakes[k + 1..]) <==> w in Woken(wakes[k..]) - {wakes[k]} {
      if w in Woken(wakes[k..]) && w != wakes[k] {
        var i :| k <= i < |wakes| && wakes[i] == w;
        assert wakes[k + 1..][i - k - 1] == w;
      }
    }
    assert Woken(wakes[k + 1..]) == Woken(wakes[k..]) - {wakes[k]};
  }

  lemma TurnMissesNobody(before: Seats, after: Seats, parked: seq<bool>, wakes: seq<nat>,
                         s: Option<Subscription>, source: nat, event: nat, ok: bool, wake: Option<nat>)
    requires NobodyMissed(before, parked, Woken(wakes)) && Distinct(wakes)
    requires !Feeds(s, source) ==> after == before && wake == None
    requires Feeds(s, source) ==>
      && s.value.ring < |before| && before[s.value.ring].Some?
      && var r := before[s.value.ring].value;
         after == before[s.value.ring := Some(Offered(r, s.value, event, ok))]
         && wake == (if ok && r.waiting then Some(r.owner) else None) && (r.waiting ==> ok)
    ensures var more := if wake.Some? then wakes + [wake.value] else wakes;
            NobodyMissed(after, parked, Woken(more)) && Distinct(more)
  {
    if Feeds(s, source) {
      var r := before[s.value.ring].value;
      if r.waiting { assert WaitingAt(before, s.value.ring); }
      PostMissesNobody(before, parked, Woken(wakes), s.value.ring, Offered(r, s.value, event, ok).posted);
      assert wake.Some? ==> Woken(wakes + [wake.value]) == Woken(wakes) + {r.owner};
    }
  }

  class RingTable {
    const rings: array<Ring?>
    const subs: array<Option<Subscription>>
    /** Blocked in `ring_wait`, by process slot. */
    const parked: array<bool>
    /** Every event offered to each subscription since it was made. */
    ghost var streams: seq<seq<Delivery>>

    ghost function Repr(): set<object>
      reads this, rings
    {
      {this, rings, subs, parked}
      + (set i | 0 <= i < rings.Length && rings[i] != null :: rings[i])
      + (set i | 0 <= i < rings.Length && rings[i] != null :: rings[i].cqSlots)
      + (set i | 0 <= i < rings.Length && rings[i] != null :: rings[i].sqSlots)
    }

    ghost predicate RingsOk()
      reads this, rings, Repr()
    {
      && rings.Length == MAX_RINGS
      && (forall i :: 0 <= i < MAX_RINGS && rings[i] != null ==> rings[i].Valid() && rings[i].owner < MAX_PROCESSES)
      && forall i, j :: 0 <= i < j < MAX_RINGS && rings[i] != null && rings[j] != null ==>
           rings[i] != rings[j] && rings[i].cqSlots != rings[j].cqSlots && rings[i].sqSlots != rings[j].sqSlots
    }

    ghost function SeatAt(i: nat): Option<RingState>
      requires i < rings.Length
      reads this, rings, Repr()
    {
      if rings[i] == null then None
      else
        var r := rings[i];
        Some(RingState(r.owner, r.waiting, r.cqSlots.Length, r.posted, r.reaped,
                       SqState(r.sqHead, r.sqTailWord, r.sqSlots[..], r.pushed, r.drained)))
    }

    ghost function View(): (r: Seats)
      requires RingsOk()
      reads this, rings, Repr()
      ensures |r| == MAX_RINGS
    {
      seq(MAX_RINGS, i requires 0 <= i < MAX_RINGS && i < rings.Length reads this, rings, Repr() => SeatAt(i))
    }

    ghost predicate SubsOk()
      requires RingsOk()
      reads this, subs, rings, Repr()
    {
      subs.Length == |streams| == MAX_SUBS && SubsFine(subs[..], streams, View())
    }

    ghost predicate Valid()
      reads this, rings, Repr()
    {
      && RingsOk() && SubsOk() && parked.Length == MAX_PROCESSES
      && NobodyMissed(View(), parked[..], {})
    }

    constructor ()
      ensures Valid() && fresh(rings) && fresh(subs) && fresh(parked)
      ensures forall i :: 0 <= i < MAX_RINGS ==> rings[i] == null
    {
      rings := new Ring?[MAX_RINGS](_ => null);
      subs := new Option<Subscription>[MAX_SUBS](_ => None);
      parked := new bool[MAX_PROCESSES](_ => false);
      streams := seq(MAX_SUBS, _ => []);
      new;
      assert forall i :: 0 <= i < MAX_RINGS ==> View()[i] == None;
    }

    /** `cq_post`: a released ring swallows the completion. */
    method PostTo(id: nat, userData: nat, status: nat, dropIfFull: bool) returns (admitted: bool, wake: Option<nat>)
      requires RingsOk() && id < MAX_RINGS
      modifies Repr() - {this, rings, subs, parked}
      ensures RingsOk() && Repr() == old(Repr())
      ensures old(View())[id].None? ==> admitted && wake == None && View() == old(View())
      ensures old(View())[id].Some? ==>
        var r := old(View())[id].value;
        && View() == old(View())[id := Some(r.(waiting := r.waiting && !admitted,
                                              posted := if admitted then r.posted + [Completion(userData, status)] else r.posted))]
        && wake == (if admitted && r.waiting then Some(r.owner) else None)
        && (admitted <==> !dropIfFull || RoomFor(r, 0)) && (r.waiting ==> admitted)
    {
      hide RingTable.View, RoomFor;
      SeatIs(id);
      if rings[id] == null {
        return true, None;
      }
      admitted, wake := PostLive(id, userData, status, dropIfFull);
    }

    method PostLive(id: nat, userData: nat, status: nat, dropIfFull: bool) returns (admitted: bool, wake: Option<nat>)
      requires RingsOk() && id < MAX_RINGS && rings[id] != null
      modifies Repr() - {this, rings, subs, parked}
      ensures RingsOk() && Repr() == old(Repr())
      ensures var r := old(SeatAt(id)).value;
        && View() == old(View())[id := Some(r.(waiting := r.waiting && !admitted,
                                              posted := if admitted then r.posted + [Completion(userData, status)] else r.posted))]
        && wake == (if admitted && r.waiting then Some(r.owner) else None)
        && (admitted <==> !dropIfFull || RoomFor(r, 0)) && (r.waiting ==> admitted)
    {
      hide RingTable.View, Ring.Valid, Ring.CqIntact, Ring.Unreaped, RoomFor;
      var r := rings[id];
      SeatRoom(id);
      admitted, wake := r.Post(userData, status, dropIfFull);
      assert SeatAt(id) == Some(old(SeatAt(id)).value.(waiting := r.waiting, posted := r.posted));
      OneRingTouched(id);
    }

    /** Only ring `id` was touched, and it is still a ring of the same owner. */
    twostate lemma OneRingTouched(id: nat)
      requires old(RingsOk()) && id < MAX_RINGS && rings[..] == old(rings[..])
      requires rings[id] != null && rings[id].Valid()
      requires forall i {:trigger rings[i]} :: 0 <= i < MAX_RINGS && i != id && rings[i] != null ==>
        unchanged(rings[i], rings[i].cqSlots, rings[i].sqSlots)
      ensures RingsOk() && Repr() == old(Repr())
      ensures View() == old(View())[id := SeatAt(id)]
    {
      hide Recent, RingTable.SeatAt, RingTable.View;
      assert forall i :: 0 <= i < MAX_RINGS ==> rings[i] == old(rings[i]);
      forall i: nat | i < MAX_RINGS && i != id ensures SeatAt(i) == old(SeatAt(i)) {
        SeatUntouched(i);
      }
      SeatChanged(id);
    }

    twostate lemma SeatUntouched(i: nat)
      requires i < rings.Length && rings[i] == old(rings[i])
      requires rings[i] != null ==> unchanged(rings[i], rings[i].cqSlots, rings[i].sqSlots)
      ensures SeatAt(i) == old(SeatAt(i))
    {
      if rings[i] != null {
        assert rings[i].sqSlots[..] == old(rings[i].sqSlots[..]);
      }
    }

    lemma SeatIs(id: nat)
      requires RingsOk() && id < MAX_RINGS
      ensures View()[id] == SeatAt(id)
    {
    }

    lemma SeatRoom(id: nat)
      requires id < rings.Length && rings[id] != null && rings[id].Valid()
      ensures var r := rings[id];
        && (RoomFor(SeatAt(id).value, 0) <==> (|r.posted| - r.reaped) % U32 < r.cqSlots.Length)
        && (r.waiting ==> RoomFor(SeatAt(id).value, 0))
    {
    }

    lemma SeatRead(id: nat)
      requires id < rings.Length && rings[id] != null && rings[id].Valid()
      ensures var r := rings[id];
        NextRead(SeatAt(id).value)
        == if r.reaped <= |r.posted| && (|r.posted| - r.reaped) % U32 != 0
           then Some(r.posted[Standing(r.reaped, |r.posted|, r.cqSlots.Length)]) else None
    {
      hide Standing, Recent;
    }

    /** An honest library OS pushing one entry from user space. */
    method PushEntry(id: nat, e: SqEntry) returns (ok: bool)
      requires RingsOk() && id < MAX_RINGS && rings[id] != null && rings[id].SqHonest()
      modifies Repr() - {this, rings, subs, parked}
      ensures RingsOk() && Repr() == old(Repr()) && rings[id].SqHonest()
      ensures old(View())[id].Some? && (ok <==> var sq := old(View())[id].value.sq; |sq.pushed| < sq.drained + |sq.slots|)
      ensures View()[id].Some? && View()[id].value.sq.pushed == if ok then old(View())[id].value.sq.pushed + [e] else old(View())[id].value.sq.pushed
      ensures View() == old(View())[id := Some(old(View())[id].value.(sq := View()[id].value.sq))]
      ensures View()[id].value.sq.drained == old(View())[id].value.sq.drained && View()[id].value.sq.head == old(View())[id].value.sq.head
      ensures |View()[id].value.sq.slots| == |old(View())[id].value.sq.slots|
    {
      hide RingTable.View, Ring.Valid, Ring.SqHonest;
      SeatIs(id);
      ok := rings[id].Push(e);
      OneRingTouched(id);
    }

    /** Publish how far the drain got: the kernel's head, and its mirror. */
    method SetSqHead(id: nat, head: Index, ghost consumed: nat)
      requires RingsOk() && id < MAX_RINGS && View()[id].Some? && head == (View()[id].value.sq.drained + consumed) % U32
      modifies Repr() - {this, rings, subs, parked}
      ensures RingsOk() && Repr() == old(Repr())
      ensures View() == var r := old(View())[id].value;
        old(View())[id := Some(r.(sq := r.sq.(head := head, drained := r.sq.drained + consumed)))]
    {
      hide RingTable.View, Ring.Valid;
      SeatIs(id);
      rings[id].Drained(head, consumed);
      OneRingTouched(id);
    }

    /** One subscription's turn in `Subscriptions::deliver`. */
    method DeliverOne(i: nat, source: nat, event: nat) returns (admitted: bool, wake: Option<nat>)
      requires RingsOk() && SubsOk() && i < MAX_SUBS
      modifies Repr() - {rings, parked}
      ensures RingsOk() && SubsOk() && Repr() == old(Repr())
      ensures !Feeds(old(subs[i]), source) ==>
        View() == old(View()) && subs[..] == old(subs[..]) && streams == old(streams) && wake == None && admitted
      ensures Feeds(old(subs[i]), source) ==>
        var s := old(subs[i]).value;
        && s.ring < MAX_RINGS && old(View())[s.ring].Some?
        && var r := old(View())[s.ring].value;
           && subs[..] == old(subs[..])[i := Some(s.(dropped := if admitted then 0 else Saturated(s.dropped)))]
           && streams == old(streams)[i := old(streams[i]) + [Delivery(event, admitted)]]
           && View() == old(View())[s.ring := Some(Offered(r, s, event, admitted))]
           && wake == (if admitted && r.waiting then Some(r.owner) else None)
           && (r.waiting ==> admitted) && (admitted <==> RoomFor(r, 0))
    {
      hide RingTable.RingsOk, RingTable.View, RingTable.Repr, SubsFine;
      var entry := subs[i];
      if entry.None? || entry.value.source != source {
        return true, None;
      }
      var s := entry.value;
      SubRings(subs[..], streams, View(), i);
      ghost var subs0, streams0, seats := subs[..], streams, View();
      admitted, wake := PostTo(s.ring, s.userData, Flagged(event, s.dropped > 0), true);
      OfferedIsFine(subs0, streams0, seats, i, event, admitted, Offered(seats[s.ring].value, s, event, admitted));
      SetSub(i, Some(s.(dropped := if admitted then 0 else Saturated(s.dropped))), streams[i] + [Delivery(event, admitted)]);
    }

    method SetSub(i: nat, s: Option<Subscription>, ghost log: seq<Delivery>)
      requires RingsOk() && i < subs.Length == |streams|
      modifies Repr() - {rings, parked}
      ensures RingsOk() && View() == old(View()) && Repr() == old(Repr())
      ensures subs[..] == old(subs[..])[i := s] && streams == old(streams)[i := log]
    {
      hide Ring.Valid;
      subs[i] := s;
      streams := streams[i := log];
      SameSeats();
    }

    /** `deliver_event`: offer the event to every subscription on its source, then
        wake each owner that was parked on a ring it reached, once. */
    method Deliver(source: nat, event: nat) returns (ghost admitted: seq<bool>, wakes: seq<nat>)
      requires Valid()
      modifies Repr()
      ensures Valid() && Repr() == old(Repr()) && |admitted| == MAX_SUBS
      ensures forall i :: 0 <= i < MAX_SUBS ==>
        subs[i] == Counted(old(subs[i]), source, admitted[i]) && streams[i] == Logged(old(streams[i]), old(subs[i]), source, event, admitted[i])
      ensures forall r :: 0 <= r < MAX_RINGS ==> View()[r] == Reached(old(View())[r], Routed(old(subs[..]), admitted, source, event, r, MAX_SUBS))
      ensures Distinct(wakes)
      ensures forall p :: 0 <= p < MAX_PROCESSES ==> parked[p] == (old(parked[p]) && p !in wakes) && (p in wakes ==> old(parked[p]))
      ensures forall i :: 0 <= i < MAX_SUBS && Feeds(old(subs[i]), source) && WaitingAt(old(View()), old(subs[i]).value.ring) ==>
        old(View())[old(subs[i]).value.ring].value.owner in wakes
      ensures admitted == Admits(old(View()), old(subs[..]), source, event, MAX_SUBS)
    {
      hide RingTable.RingsOk, RingTable.View, NobodyMissed, RingTable.Repr, SubsFine, Woken, Distinct, Takes;
      ghost var was, subs0 := View(), subs[..];
      assert Woken([]) == {} && Distinct([]) by { NoWakes(); }
      UnderwayNone(was, subs0, source, event);
      admitted, wakes := [], [];
      for n := 0 to MAX_SUBS
        invariant RingsOk() && SubsOk() && Repr() == old(Repr()) && parked.Length == MAX_PROCESSES && parked[..] == old(parked[..])
        invariant NobodyMissed(View(), parked[..], Woken(wakes)) && Distinct(wakes)
        invariant Underway(was, View(), subs0, admitted, source, event, n, wakes)
        invariant admitted == Admits(was, subs0, source, event, n)
        invariant forall i :: 0 <= i < n ==>
          subs[i] == Counted(subs0[i], source, admitted[i]) && streams[i] == Logged(old(streams[i]), subs0[i], source, event, admitted[i])
        invariant forall i :: n <= i < MAX_SUBS ==> subs[i] == subs0[i] && streams[i] == old(streams[i])
      {
        ghost var before := View();
        assert subs[n] == subs0[n];
        var ok, wake := DeliverOne(n, source, event);
        AdmitsMore(was, before, subs0, admitted, source, event, n, wakes, ok);
        UnderwayMore(was, before, subs0, admitted, source, event, n, wakes, ok, wake, View());
        TurnMissesNobody(before, View(), parked[..], wakes, subs0[n], source, event, ok, wake);
        admitted := admitted + [ok];
        if wake.Some? {
          wakes := wakes + [wake.value];
        }
      }
      AllWereParked(View(), parked[..], wakes);
      WakeAll(wakes);
    }

    /** A block completion from the device: post it, and wake the owner if it was
        parked on this ring. */
    method Complete(id: nat, userData: nat, status: nat) returns (wake: Option<nat>)
      requires Valid() && id < MAX_RINGS
      modifies Repr()
      ensures Valid() && Repr() == old(Repr()) && subs[..] == old(subs[..]) && streams == old(streams)
      ensures View()[id] == Reached(old(View())[id], [Completion(userData, status)])
      ensures forall r :: 0 <= r < MAX_RINGS && r != id ==> View()[r] == old(View())[r]
      ensures wake == (if WaitingAt(old(View()), id) then Some(old(View())[id].value.owner) else None)
      ensures forall p :: 0 <= p < MAX_PROCESSES ==> parked[p] == (old(parked[p]) && wake != Some(p))
    {
      hide RingTable.RingsOk, RingTable.View, NobodyMissed, RingTable.Repr, SubsFine;
      ghost var before := View();
      var _, w := PostTo(id, userData, status, false);
      wake := w;
      CompletionMissesNobody(before, View(), parked[..], subs[..], streams, id, Completion(userData, status), wake);
      if wake.Some? {
        WakeAll([wake.value]);
      }
    }

    /** The owner takes the oldest completion of its ring. A ring somebody is parked on
        is empty, so nothing changes there. */
    method ReapFrom(id: nat) returns (r: Option<Completion>)
      requires Valid() && id < MAX_RINGS && View()[id].Some?
      modifies Repr()
      ensures Valid() && Repr() == old(Repr())
      ensures subs[..] == old(subs[..]) && streams == old(streams) && parked[..] == old(parked[..])
      ensures r == NextRead(old(View())[id].value)
      ensures View() == old(View())[id := Some(AfterRead(old(View())[id].value))]
    {
      hide RingTable.RingsOk, RingTable.View, RingTable.Repr, NobodyMissed, SubsFine, Standing;
      ghost var before := View();
      r := TakeOldest(id);
      ReapMissesNobody(before, View(), parked[..], subs[..], streams, id);
    }

    method TakeOldest(id: nat) returns (r: Option<Completion>)
      requires RingsOk() && id < MAX_RINGS && View()[id].Some?
      modifies Repr() - {this, rings, subs, parked}
      ensures RingsOk() && Repr() == old(Repr())
      ensures r == NextRead(old(View())[id].value)
      ensures View() == old(View())[id := Some(AfterRead(old(View())[id].value))]
    {
      hide RingTable.View, Ring.Valid, Ring.CqIntact, Ring.Unreaped, Standing, NextRead;
      SeatIs(id);
      SeatRead(id);
      r := rings[id].Reap();
      assert SeatAt(id) == Some(AfterRead(old(SeatAt(id)).value));
      hide RingTable.SeatAt;
      OneRingTouched(id);
    }

    method MarkWaiting(id: nat)
      requires RingsOk() && id < MAX_RINGS && View()[id].Some? && View()[id].value.reaped == |View()[id].value.posted|
      modifies Repr() - {this, rings, subs, parked}
      ensures RingsOk() && Repr() == old(Repr()) && View() == old(View())[id := Some(old(View())[id].value.(waiting := true))]
    {
      rings[id].waiting := true;
      SeatChanged(id);
    }

    /** `ring_wait` by the ring's owner: return at once when something is unreaped,
        park otherwise. The indices tell the two apart while fewer than 2^32 are. */
    method Wait(id: nat) returns (parkedNow: bool)
      requires Valid() && id < MAX_RINGS && View()[id].Some? && !parked[View()[id].value.owner]
      requires |View()[id].value.posted| < View()[id].value.reaped + U32
      modifies Repr()
      ensures Valid() && Repr() == old(Repr()) && subs[..] == old(subs[..]) && streams == old(streams)
      ensures parkedNow <==> old(View()[id].value.reaped == |View()[id].value.posted|)
      ensures View() == old(View())[id := Some(old(View())[id].value.(waiting := parkedNow))]
      ensures parked[..] == old(parked[..])[old(View())[id].value.owner := parkedNow]
    {
      hide RingTable.Repr, NobodyMissed, SubsFine;
      var r := rings[id];
      ghost var before := View();
      NotWaiting(before, parked[..], id);
      WrapSubIsDistance(|r.posted|, r.reaped);
      if r.cqTail != r.cqHeadWord {
        assert View() == before[id := Some(before[id].value.(waiting := false))];
        return false;
      }
      ParkMissesNobody(before, parked[..], id);
      SeatKeepsSubs(subs[..], streams, before, id, before[id].value.(waiting := true));
      MarkWaiting(id);
      SetParked(r.owner, true);
      return true;
    }

    /** The ring half of `release`: the slot is free; its owner is running. */
    method Free(id: nat)
      requires RingsOk() && id < MAX_RINGS
      modifies rings
      ensures RingsOk() && Repr() <= old(Repr()) && View() == old(View())[id := None]
    {
      hide Ring.Valid;
      rings[id] := null;
      SeatChanged(id);
    }

    /** `release_ring`: no subscription may outlive its ring. */
    method DropSubs(id: nat)
      requires RingsOk() && subs.Length == |streams| == MAX_SUBS
      modifies Repr() - {rings, parked}
      ensures RingsOk() && View() == old(View()) && Repr() == old(Repr()) && streams == old(streams)
      ensures forall i :: 0 <= i < MAX_SUBS ==> subs[i] == if OnRing(old(subs[i]), id) then None else old(subs[i])
    {
      hide RingTable.RingsOk, RingTable.View, RingTable.Repr;
      for n := 0 to MAX_SUBS
        invariant RingsOk() && View() == old(View()) && Repr() == old(Repr()) && streams == old(streams)
        invariant forall i :: 0 <= i < n ==> subs[i] == if OnRing(old(subs[i]), id) then None else old(subs[i])
        invariant forall i :: n <= i < MAX_SUBS ==> subs[i] == old(subs[i])
      {
        if subs[n].Some? && subs[n].value.ring == id {
          SetSub(n, None, streams[n]);
        }
      }
    }

    /** `release`: afterwards nothing routes into the slot. Whoever is parked on the
        ring is not told: nobody is left asleep exactly when nobody was waiting on it. */
    method Release(id: nat)
      requires Valid() && id < MAX_RINGS
      modifies Repr()
      ensures Valid() <==> !WaitingAt(old(View()), id)
      ensures RingsOk() && SubsOk() && Repr() <= old(Repr()) && View() == old(View())[id := None] && parked[..] == old(parked[..])
      ensures forall i :: 0 <= i < MAX_SUBS ==> subs[i] == if OnRing(old(subs[i]), id) then None else old(subs[i])
    {
      hide RingTable.RingsOk, RingTable.View, RingTable.Repr, NobodyMissed, SubsFine;
      ReleasedIsFine(subs[..], streams, View(), parked[..], id);
      ghost var subs0, streams0, seats := subs[..], streams, View();
      DropSubs(id);
      FreeKeeps(id);
      assert subs[..] == OffRing(subs0, id);
    }

    method FreeKeeps(id: nat)
      requires RingsOk() && id < MAX_RINGS
      modifies Repr() - {this, subs, parked}
      ensures RingsOk() && Repr() <= old(Repr()) && View() == old(View())[id := None]
    {
      Free(id);
    }

    method Bind(id: nat, owner: nat, entries: nat)
      requires RingsOk() && id < MAX_RINGS && rings[id] == null && owner < MAX_PROCESSES && GoodSize(entries)
      modifies rings
      ensures RingsOk() && View() == old(View())[id := Some(RingState(owner, false, entries, [], 0, NewSq(entries)))]
      ensures fresh(rings[id]) && rings[id].CqIntact() && rings[id].SqHonest()
    {
      hide Ring.Valid;
      var r := new Ring(owner, entries);
      SameSeats();
      rings[id] := r;
      SeatChanged(id);
    }

    /** `ring_register`, less the frame checks: the first free slot. */
    method Register(owner: nat, entries: nat) returns (id: Option<nat>)
      requires Valid() && owner < MAX_PROCESSES && !parked[owner]
      modifies rings
      ensures Valid() && subs[..] == old(subs[..]) && streams == old(streams) && parked[..] == old(parked[..])
      ensures id.Some? ==>
        && GoodSize(entries) && id.value < MAX_RINGS && old(View())[id.value].None?
        && View() == old(View())[id.value := Some(RingState(owner, false, entries, [], 0, NewSq(entries)))]
        && fresh(rings[id.value]) && rings[id.value].CqIntact() && rings[id.value].SqHonest()
      ensures id.None? ==> View() == old(View()) && (!GoodSize(entries) || forall i :: 0 <= i < MAX_RINGS ==> old(View())[i].Some?)
    {
      hide NobodyMissed, SubsFine, Ring.Valid;
      if !GoodSize(entries) {
        return None;
      }
      for n := 0 to MAX_RINGS
        invariant rings[..] == old(rings[..]) && Valid() && View() == old(View())
        invariant forall i :: 0 <= i < n ==> View()[i].Some?
      {
        if rings[n] == null {
          RegisteredIsFine(subs[..], streams, View(), parked[..], n, RingState(owner, false, entries, [], 0, NewSq(entries)));
          Bind(n, owner, entries);
          return Some(n);
        }
      }
      return None;
    }

    method Find(ring: nat, userData: nat) returns (r: Option<nat>)
      requires subs.Length == MAX_SUBS
      ensures r == FindSub(subs[..], ring, userData)
    {
      for n := 0 to MAX_SUBS
        invariant forall i :: 0 <= i < n ==> !Keyed(subs[i], ring, userData)
      {
        if subs[n].Some? && subs[n].value.ring == ring && subs[n].value.userData == userData {
          FindSubIs(subs[..], ring, userData, 0, n);
          return Some(n);
        }
      }
      return None;
    }

    /** `subscribe`: refused for a key in use or a full pool. */
    method Subscribe(source: nat, ring: nat, userData: nat) returns (slot: Option<nat>)
      requires RingsOk() && SubsOk() && ring < MAX_RINGS && View()[ring].Some?
      modifies Repr() - {rings, parked}
      ensures RingsOk() && SubsOk() && View() == old(View()) && Repr() == old(Repr())
      ensures slot == if FindSub(old(subs[..]), ring, userData).Some? then None else FreeSub(old(subs[..]))
      ensures subs[..] == if slot.Some? then old(subs[..])[slot.value := Some(Subscription(source, ring, userData, 0))] else old(subs[..])
    {
      hide RingTable.RingsOk, RingTable.View, RingTable.Repr, SubsFine;
      slot := SlotFor(ring, userData);
      if slot.Some? {
        SubscribedIsFine(subs[..], streams, View(), slot.value, Subscription(source, ring, userData, 0));
        SetSub(slot.value, Some(Subscription(source, ring, userData, 0)), []);
      }
    }

    /** Where a new subscription would go, if it is admitted at all. */
    method SlotFor(ring: nat, userData: nat) returns (slot: Option<nat>)
      requires RingsOk() && SubsOk()
      ensures RingsOk() && SubsOk() && View() == old(View()) && Repr() == old(Repr())
      ensures slot == if FindSub(subs[..], ring, userData).Some? then None else FreeSub(subs[..])
    {
      hide Ring.Valid, SubsFine;
      var taken := Find(ring, userData);
      slot := None;
      if taken.None? {
        slot := FirstFreeSub();
      }
      SameSeats();
    }

    method FirstFreeSub() returns (r: Option<nat>)
      requires subs.Length == MAX_SUBS
      ensures r == FreeSub(subs[..])
    {
      for n := 0 to MAX_SUBS
        invariant forall i :: 0 <= i < n ==> subs[i].Some?
      {
        if subs[n].None? {
          FreeSubIs(subs[..], 0, n);
          return Some(n);
        }
      }
      return None;
    }

    /** `cancel`, by exact key. */
    method CancelSub(ring: nat, userData: nat)
      requires RingsOk() && SubsOk()
      modifies Repr() - {rings, parked}
      ensures RingsOk() && SubsOk() && View() == old(View()) && Repr() == old(Repr())
      ensures subs[..] == var i := FindSub(old(subs[..]), ring, userData);
                          if i.Some? then old(subs[..])[i.value := None] else old(subs[..])
    {
      hide Ring.Valid, SubsFine;
      var i := Find(ring, userData);
      if i.Some? {
        CancelledIsFine(subs[..], streams, View(), i.value);
        SetSub(i.value, None, streams[i.value]);
      }
    }

    method SetParked(p: nat, b: bool)
      requires RingsOk() && p < parked.Length
      modifies Repr() - {this, rings, subs}
      ensures RingsOk() && View() == old(View()) && Repr() == old(Repr()) && parked[..] == old(parked[..])[p := b]
    {
      hide Ring.Valid;
      parked[p] := b;
      SameSeats();
    }

    /** Each decided wake-up is of a parked process, and frees only that one. */
    method WakeAll(wakes: seq<nat>)
      requires RingsOk() && SubsOk() && parked.Length == MAX_PROCESSES && Distinct(wakes)
      requires NobodyMissed(View(), parked[..], Woken(wakes))
      modifies Repr() - {this, rings, subs}
      ensures Valid() && View() == old(View()) && Repr() == old(Repr())
      ensures forall p :: 0 <= p < MAX_PROCESSES ==> parked[p] == (old(parked[p]) && p !in wakes)
    {
      hide RingTable.RingsOk, RingTable.View, NobodyMissed, RingTable.Repr, SubsFine, Woken, Distinct;
      assert wakes[0..] == wakes;
      for k := 0 to |wakes|
        invariant RingsOk() && SubsOk() && View() == old(View()) && Repr() == old(Repr())
        invariant NobodyMissed(View(), parked[..], Woken(wakes[k..]))
        invariant forall p :: 0 <= p < MAX_PROCESSES ==> parked[p] == (old(parked[p]) && p !in wakes[..k])
      {
        HeadIsDue(View(), parked[..], wakes, k);
        SetParked(wakes[k], false);
      }
      NoWakes();
      assert wakes[|wakes|..] == [] && wakes[..|wakes|] == wakes;
    }

    twostate lemma SameSeats()
      requires old(RingsOk()) && RingsOk()
      requires forall i :: 0 <= i < MAX_RINGS ==> SeatAt(i) == old(SeatAt(i))
      ensures View() == old(View())
    {
    }

    /** Only ring `id` differs from what it was. */
    twostate lemma SeatChanged(id: nat)
      requires old(RingsOk()) && RingsOk() && id < MAX_RINGS
      requires forall i :: 0 <= i < MAX_RINGS && i != id ==> SeatAt(i) == old(SeatAt(i))
      ensures View() == old(View())[id := SeatAt(id)]
    {
    }
  }
}
