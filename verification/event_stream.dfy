/** What one event subscription's reader sees: the events its queue admitted, each
    flagged when others were lost just before it (kernel/src/rings.rs). */
module EventStreams {
  import opened Prelude
  import opened InputEvents

  /** The largest value the sticky 32-bit count can hold. */
  const MAX_COUNT: nat := 0xFFFF_FFFF

  /** One event on the source, and whether the reader's queue had room for it. */
  datatype Delivery = Delivery(event: nat, admitted: bool)

  /** `dropped.saturating_add(1)`. */
  function Saturated(n: nat): nat {
    if n < MAX_COUNT then n + 1 else MAX_COUNT
  }

  /** The sticky count after these deliveries: cleared by every admitted event. */
  function Losses(log: seq<Delivery>): nat {
    if log == [] || log[|log| - 1].admitted then 0 else Saturated(Losses(log[..|log| - 1]))
  }

  /** `event | EVENT_DROPPED` when something was lost, on 32-bit words. */
  function Flagged(event: nat, lost: bool): nat {
    if lost && event < EVENT_DROPPED then event + EVENT_DROPPED else event
  }

  /** The statuses posted to the reader's queue. */
  function Seen(log: seq<Delivery>): seq<nat> {
    if log == [] then []
    else
      var before := log[..|log| - 1];
      var last := log[|log| - 1];
      if last.admitted then Seen(before) + [Flagged(last.event, Losses(before) > 0)] else Seen(before)
  }

  /** How many of the first `n` deliveries were admitted. */
  function Admissions(log: seq<Delivery>, n: nat): nat
    requires n <= |log|
  {
    if n == 0 then 0 else Admissions(log, n - 1) + if log[n - 1].admitted then 1 else 0
  }

  /** The current run of losses: how many of the last deliveries were all dropped. */
  function TrailingDrops(log: seq<Delivery>): nat {
    if log == [] || log[|log| - 1].admitted then 0 else 1 + TrailingDrops(log[..|log| - 1])
  }

  /** The sticky count is the length of the current run of losses, saturating. */
  lemma {:induction false} LossesAreTheRun(log: seq<Delivery>)
    ensures Losses(log) == (if TrailingDrops(log) <= MAX_COUNT then TrailingDrops(log) else MAX_COUNT)
    ensures TrailingDrops(log) <= |log|
    ensures forall k :: |log| - TrailingDrops(log) <= k < |log| ==> !log[k].admitted
    ensures TrailingDrops(log) < |log| ==> log[|log| - TrailingDrops(log) - 1].admitted
  {
    if log != [] && !log[|log| - 1].admitted {
      LossesAreTheRun(log[..|log| - 1]);
    }
  }

  lemma {:induction false} AdmissionsPrefix(log: seq<Delivery>, m: nat, n: nat)
    requires n <= m <= |log|
    ensures Admissions(log[..m], n) == Admissions(log, n)
    decreases n
  {
    if n > 0 { AdmissionsPrefix(log, m, n - 1); }
  }

  lemma {:induction false} AdmissionsMonotone(log: seq<Delivery>, m: nat, n: nat)
    requires m <= n <= |log|
    ensures Admissions(log, m) <= Admissions(log, n)
    decreases n
  {
    if m < n { AdmissionsMonotone(log, m, n - 1); }
  }

  /** The reader sees exactly the admitted events, in order and once each, so a
      subsequence of the events on the source; and the one it sees carries the drop
      flag exactly when the event delivered just before it was lost. */
  lemma {:induction false} ReaderSees(log: seq<Delivery>, i: nat)
    requires i < |log| && log[i].admitted
    ensures |Seen(log)| == Admissions(log, |log|) && Admissions(log, i) < |Seen(log)|
    ensures Seen(log)[Admissions(log, i)] == Flagged(log[i].event, i > 0 && !log[i - 1].admitted)
    decreases |log|
  {
    var n := |log| - 1;
    SeenSize(log);
    if i == n {
      SeenSize(log[..n]);
      AdmissionsPrefix(log, n, n);
      LossesSign(log[..n]);
    } else {
      ReaderSees(log[..n], i);
      AdmissionsPrefix(log, n, i);
      AdmissionsMonotone(log, i + 1, |log|);
    }
  }

  lemma {:induction false} SeenSize(log: seq<Delivery>)
    ensures |Seen(log)| == Admissions(log, |log|)
  {
    if log != [] {
      SeenSize(log[..|log| - 1]);
      AdmissionsPrefix(log, |log| - 1, |log| - 1);
    }
  }

  lemma LossesSign(log: seq<Delivery>)
    ensures Losses(log) > 0 <==> log != [] && !log[|log| - 1].admitted
  {
  }

  /** Nothing else is ever seen: position `j` of the reader's stream is some admitted
      delivery. */
  lemma {:induction false} SeenIsDelivered(log: seq<Delivery>, j: nat) returns (i: nat)
    requires j < |Seen(log)|
    ensures i < |log| && log[i].admitted && Admissions(log, i) == j
    decreases |log|
  {
    var n := |log| - 1;
    SeenSize(log[..n]);
    AdmissionsPrefix(log, n, n);
    if log[n].admitted && j == |Seen(log)| - 1 {
      i := n;
    } else {
      i := SeenIsDelivered(log[..n], j);
      AdmissionsPrefix(log, n, i);
    }
  }

  /** With events packed as the drivers pack them, a reader that strips the flag has
      the very events, and reads the flag without ambiguity. */
  lemma ReaderDecodes(log: seq<Delivery>, i: nat, e: Event)
    requires i < |log| && log[i].admitted && Wired(e) && log[i].event == Pack(e)
    ensures Admissions(log, i) < |Seen(log)|
    ensures var word := Seen(log)[Admissions(log, i)];
            Unpack(word % EVENT_DROPPED) == e && (word >= EVENT_DROPPED <==> i > 0 && !log[i - 1].admitted)
  {
    ReaderSees(log, i);
    PackRoundTrip(e);
    FlagIsSeparate(e, i > 0 && !log[i - 1].admitted);
  }

  lemma SeenStep(log: seq<Delivery>, d: Delivery)
    ensures Losses(log + [d]) == if d.admitted then 0 else Saturated(Losses(log))
    ensures Seen(log + [d]) == if d.admitted then Seen(log) + [Flagged(d.event, Losses(log) > 0)] else Seen(log)
  {
    assert (log + [d])[..|log|] == log;
  }
}
