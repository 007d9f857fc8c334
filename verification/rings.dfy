/** One bound ring: the kernel's own indices, the shared header words, and the two
    queues they stand for (kernel/src/rings.rs). The library OS's side is `Push` and
    `Reap`; everything else is the kernel's. */
module Rings {
  import opened Prelude
  import opened RingQueues

  datatype Completion = Completion(userData: nat, status: nat)

  datatype SqEntry = SqEntry(op: nat, flags: nat, rangeSlot: nat, frameSlot: nat, sectorOff: nat, userData: nat)

  class Ring {
    const owner: nat
    const cqSlots: array<Completion>
    const sqSlots: array<SqEntry>
    var cqTail: Index
    var sqHead: Index
    /** The owner is parked in `ring_wait` on this ring. */
    var waiting: bool
    var cqHeadWord: Index
    var cqTailWord: Index
    var sqHeadWord: Index
    var sqTailWord: Index
    ghost var posted: seq<Completion>
    ghost var reaped: nat
    ghost var pushed: seq<SqEntry>
    ghost var drained: nat

    /** Indices are the true counts modulo 2^32, the headers mirror them, and the last
        completions posted are in their slots. */
    ghost predicate Valid()
      reads this, cqSlots
    {
      && GoodSize(cqSlots.Length) && sqSlots.Length == cqSlots.Length
      && cqTail == cqTailWord == |posted| % U32 && cqHeadWord == reaped % U32
      && sqHead == sqHeadWord == drained % U32
      && reaped <= |posted|
      && (waiting ==> reaped == |posted|)
      && Recent(cqSlots[..], posted)
    }

    /** No unreaped completion has been overwritten. */
    ghost predicate CqIntact()
      reads this
    {
      |posted| <= reaped + cqSlots.Length
    }

    lemma UnreapedAreThere()
      requires Valid()
      ensures CqIntact() <==> Intact(cqSlots[..], posted, reaped)
    {
      RecentIsIntact(cqSlots[..], posted, reaped);
    }

    /** The library OS has published exactly what it pushed, within the ring. */
    ghost predicate SqHonest()
      reads this, sqSlots
    {
      Intact(sqSlots[..], pushed, drained) && sqTailWord == |pushed| % U32
    }

    /** The completions a reader has not yet reaped. */
    ghost function Unreaped(): seq<Completion>
      requires reaped <= |posted|
      reads this
    {
      posted[reaped..]
    }

    constructor (owner: nat, entries: nat)
      requires GoodSize(entries)
      ensures Valid() && CqIntact() && SqHonest() && fresh(cqSlots) && fresh(sqSlots)
      ensures this.owner == owner && cqSlots.Length == entries && !waiting && posted == [] && reaped == 0
      ensures sqHead == sqTailWord == drained == 0 && pushed == [] && sqSlots[..] == seq(entries, _ => SqEntry(0, 0, 0, 0, 0, 0))
    {
      this.owner := owner;
      cqSlots := new Completion[entries](_ => Completion(0, 0));
      sqSlots := new SqEntry[entries](_ => SqEntry(0, 0, 0, 0, 0, 0));
      cqTail, sqHead, waiting := 0, 0, false;
      cqHeadWord, cqTailWord, sqHeadWord, sqTailWord := 0, 0, 0, 0;
      posted, reaped, pushed, drained := [], 0, [], 0;
    }

    /** `cq_post` on a live ring. A block completion is never refused, so it keeps the
        unreaped entries exactly when there was room for it; an event is refused
        exactly when the distance, modulo 2^32, leaves none. */
    method Post(userData: nat, status: nat, dropIfFull: bool) returns (admitted: bool, wake: Option<nat>)
      requires Valid()
      modifies this`cqTail, this`cqTailWord, this`waiting, this`posted, cqSlots
      ensures Valid()
      ensures posted == if admitted then old(posted) + [Completion(userData, status)] else old(posted)
      ensures Unreaped() == if admitted then old(Unreaped()) + [Completion(userData, status)] else old(Unreaped())
      ensures wake == (if admitted && old(waiting) then Some(owner) else None)
      ensures waiting == (!admitted && old(waiting))
      ensures !admitted ==> cqSlots[..] == old(cqSlots[..])
      ensures admitted <==> !dropIfFull || old(|posted| - reaped) % U32 < cqSlots.Length
      ensures old(CqIntact()) ==> (CqIntact() <==> !admitted || |old(posted)| < reaped + cqSlots.Length)
    {
      var tail := cqTail;
      if dropIfFull {
        WrapSubWraps(|posted|, reaped);
        if WrapSub(tail, cqHeadWord) >= cqSlots.Length {
          return false, None;
        }
      }
      SlotOfCount(|posted|, cqSlots.Length);
      PutKeepsRecent(cqSlots[..], posted, Completion(userData, status));
      ghost var before := cqSlots[..];
      var slot := Slot(tail, cqSlots.Length);
      cqSlots[slot] := Completion(userData, status);
      assert cqSlots[..] == before[slot := Completion(userData, status)];
      BumpIsNext(|posted|);
      cqTail := Bump(tail);
      posted := posted + [Completion(userData, status)];
      cqTailWord := cqTail;
      if waiting {
        waiting := false;
        return true, Some(owner);
      }
      return true, None;
    }

    /** The reader takes what stands in the slot of the oldest completion it has not
        taken: that completion, unless a later one has been written over it. */
    method Reap() returns (r: Option<Completion>)
      requires Valid()
      modifies this`cqHeadWord, this`reaped
      ensures Valid() && reaped == if r.Some? then old(reaped) + 1 else old(reaped)
      ensures r.Some? <==> old(|posted| - reaped) % U32 != 0
      ensures r.Some? ==> old(reaped) < |posted| && r.value == posted[Standing(old(reaped), |posted|, cqSlots.Length)]
      ensures old(CqIntact()) ==> CqIntact() && r == if old(Unreaped()) == [] then None else Some(old(Unreaped())[0])
      ensures old(CqIntact()) ==> Unreaped() == if old(Unreaped()) == [] then [] else old(Unreaped())[1..]
    {
      WrapSubWraps(|posted|, reaped);
      if cqHeadWord == cqTailWord {
        return None;
      }
      SlotOfCount(reaped, cqSlots.Length);
      ghost var j := Standing(reaped, |posted|, cqSlots.Length);
      assert cqSlots[..][j % cqSlots.Length] == posted[j];
      r := Some(cqSlots[Slot(cqHeadWord, cqSlots.Length)]);
      BumpIsNext(reaped);
      cqHeadWord := Bump(cqHeadWord);
      reaped := reaped + 1;
    }

    /** Publish how far a drain got: the kernel's head, and its mirror. */
    method Drained(head: Index, ghost consumed: nat)
      requires Valid() && head == (drained + consumed) % U32
      modifies this`sqHead, this`sqHeadWord, this`drained
      ensures Valid() && sqHead == head && drained == old(drained) + consumed
    {
      sqHead, sqHeadWord, drained := head, head, drained + consumed;
    }

    /** The producer side of the submission queue, as an honest library OS runs it. */
    method Push(e: SqEntry) returns (ok: bool)
      requires Valid() && SqHonest()
      modifies this`sqTailWord, this`pushed, sqSlots
      ensures Valid() && SqHonest()
      ensures ok <==> |old(pushed)| < drained + sqSlots.Length
      ensures pushed == if ok then old(pushed) + [e] else old(pushed)
    {
      WrapSubIsDistance(|pushed|, drained);
      if WrapSub(sqTailWord, sqHeadWord) >= sqSlots.Length {
        return false;
      }
      SlotOfCount(|pushed|, sqSlots.Length);
      PutKeepsIntact(sqSlots[..], pushed, drained, e);
      ghost var before := sqSlots[..];
      var slot := Slot(sqTailWord, sqSlots.Length);
      sqSlots[slot] := e;
      assert sqSlots[..] == before[slot := e];
      BumpIsNext(|pushed|);
      pushed := pushed + [e];
      sqTailWord := Bump(sqTailWord);
      return true;
    }
  }

  // ----- the completion queue is a bounded FIFO -----

  datatype CqOp = PostEvent(event: Completion) | PostBlock(block: Completion) | ReapOne

  datatype CqOut = Admitted(ok: bool) | Reaped(r: Option<Completion>)

  /** A plain queue of at most `size`: no indices, no slots. */
  function Fifo(q: seq<Completion>, size: nat, op: CqOp): (seq<Completion>, CqOut) {
    match op
    case PostEvent(c) => if |q| < size then (q + [c], Admitted(true)) else (q, Admitted(false))
    case PostBlock(c) => (q + [c], Admitted(true))
    case ReapOne => if q == [] then (q, Reaped(None)) else (q[1..], Reaped(Some(q[0])))
  }

  function FifoRun(q: seq<Completion>, size: nat, ops: seq<CqOp>): (seq<Completion>, seq<CqOut>)
    decreases |ops|
  {
    if ops == [] then (q, [])
    else
      var (before, outs) := FifoRun(q, size, ops[..|ops| - 1]);
      var (after, out) := Fifo(before, size, ops[|ops| - 1]);
      (after, outs + [out])
  }

  /** The library OS sized the queue for its in-flight depth: a block completion
      always finds room. */
  predicate BlocksFit(q: seq<Completion>, size: nat, ops: seq<CqOp>) {
    forall k :: 0 <= k < |ops| && ops[k].PostBlock? ==> |FifoRun(q, size, ops[..k]).0| < size
  }

  /** Everything ever posted, and how much of it was reaped: what the indices and the
      slots amount to with or without room. */
  datatype Tape = Tape(posted: seq<Completion>, reaped: nat)

  type Size = n: nat | 0 < n <= MAX_ENTRIES witness 1

  function TapeStep(t: Tape, size: Size, op: CqOp): (Tape, CqOut) {
    match op
    case PostEvent(c) =>
      if (|t.posted| - t.reaped) % U32 < size then (t.(posted := t.posted + [c]), Admitted(true)) else (t, Admitted(false))
    case PostBlock(c) => (t.(posted := t.posted + [c]), Admitted(true))
    case ReapOne =>
      if t.reaped < |t.posted| && (|t.posted| - t.reaped) % U32 != 0
      then (t.(reaped := t.reaped + 1), Reaped(Some(t.posted[Standing(t.reaped, |t.posted|, size)])))
      else (t, Reaped(None))
  }

  function TapeRun(t: Tape, size: Size, ops: seq<CqOp>): (Tape, seq<CqOut>)
    decreases |ops|
  {
    if ops == [] then (t, [])
    else
      var (before, outs) := TapeRun(t, size, ops[..|ops| - 1]);
      var (after, out) := TapeStep(before, size, ops[|ops| - 1]);
      (after, outs + [out])
  }

  /** While block completions find room, nobody can tell the tape from a plain queue. */
  lemma {:induction false} TapeIsFifo(t: Tape, size: Size, ops: seq<CqOp>)
    requires t.reaped <= |t.posted| <= t.reaped + size && BlocksFit(t.posted[t.reaped..], size, ops)
    ensures var (end, outs) := TapeRun(t, size, ops);
      && end.reaped <= |end.posted| <= end.reaped + size
      && FifoRun(t.posted[t.reaped..], size, ops) == (end.posted[end.reaped..], outs)
    decreases |ops|
  {
    if ops != [] {
      var n := |ops| - 1;
      forall k | 0 <= k < n && ops[..n][k].PostBlock? ensures |FifoRun(t.posted[t.reaped..], size, ops[..n][..k]).0| < size {
        assert ops[..n][..k] == ops[..k];
      }
      TapeIsFifo(t, size, ops[..n]);
      var before := TapeRun(t, size, ops[..n]).0;
      if ops[n].PostBlock? { assert |FifoRun(t.posted[t.reaped..], size, ops[..n]).0| < size; }
      OneTurnIsFifo(before, size, ops[n]);
    }
  }

  lemma OneTurnIsFifo(t: Tape, size: Size, op: CqOp)
    requires t.reaped <= |t.posted| <= t.reaped + size && (op.PostBlock? ==> |t.posted| < t.reaped + size)
    ensures var (end, out) := TapeStep(t, size, op);
      && end.reaped <= |end.posted| <= end.reaped + size
      && Fifo(t.posted[t.reaped..], size, op) == (end.posted[end.reaped..], out)
  {
    hide Standing;
    if !op.ReapOne? {
      var c := if op.PostEvent? then op.event else op.block;
      assert (t.posted + [c])[t.reaped..] == t.posted[t.reaped..] + [c];
    } else if t.reaped < |t.posted| {
      assert Standing(t.reaped, |t.posted|, size) == t.reaped;
      assert t.posted[t.reaped..][1..] == t.posted[t.reaped + 1..];
    }
  }

  /** And the first that finds none costs the reader its oldest entry: it reads the
      new one in its place. */
  lemma OverrunReadsTheNewest(t: Tape, size: Size, c: Completion)
    requires |t.posted| == t.reaped + size
    ensures var after := TapeStep(t, size, PostBlock(c)).0;
      TapeStep(after, size, ReapOne).1 == Reaped(Some(c))
  {
    StandsOneTurnOn(t.reaped, size);
  }

  /** For any number of posts and reaps, across any number of wraps of the 32-bit
      indices and with or without room, the ring gives the answers of the tape. */
  method DriveCq(r: Ring, ops: seq<CqOp>) returns (outs: seq<CqOut>)
    requires r.Valid()
    modifies r, r.cqSlots
    ensures r.Valid()
    ensures (Tape(r.posted, r.reaped), outs) == TapeRun(Tape(old(r.posted), old(r.reaped)), r.cqSlots.Length, ops)
  {
    hide Standing, Recent, TapeRun;
    outs := [];
    TapeStarts(Tape(r.posted, r.reaped), r.cqSlots.Length);
    ghost var t0 := Tape(r.posted, r.reaped);
    for n := 0 to |ops|
      invariant r.Valid()
      invariant (Tape(r.posted, r.reaped), outs) == TapeRun(t0, r.cqSlots.Length, ops[..n])
    {
      TapeMore(t0, r.cqSlots.Length, ops, n);
      match ops[n] {
        case PostEvent(c) =>
          var ok, _ := r.Post(c.userData, c.status, true);
          outs := outs + [Admitted(ok)];
        case PostBlock(c) =>
          var ok, _ := r.Post(c.userData, c.status, false);
          outs := outs + [Admitted(ok)];
        case ReapOne =>
          var one := r.Reap();
          outs := outs + [Reaped(one)];
      }
    }
    assert ops[..|ops|] == ops;
  }

  lemma TapeStarts(t: Tape, size: Size)
    ensures TapeRun(t, size, []) == (t, [])
  {
  }

  lemma TapeMore(t: Tape, size: Size, ops: seq<CqOp>, n: nat)
    requires n < |ops|
    ensures var ((before, outs), (after, more)) := (TapeRun(t, size, ops[..n]), TapeRun(t, size, ops[..n + 1]));
            var (end, out) := TapeStep(before, size, ops[n]);
            after == end && more == outs + [out]
  {
    assert ops[..n + 1][..n] == ops[..n];
  }
}
