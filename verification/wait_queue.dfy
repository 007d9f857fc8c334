/** The endpoints' wait queues: intrusive FIFOs that all thread through one link
    array indexed by process slot (kernel/src/ipc.rs). `waiting` is what they
    denote, one sequence per endpoint. */
module WaitQueues {
  import opened Prelude

  const MAX_ENDPOINTS: nat := 8
  const MAX_PROCESSES: nat := 4

  datatype WaitQueue = WaitQueue(head: Option<nat>, tail: Option<nat>, areSenders: bool)

  function NextIn(w: seq<nat>, i: nat): Option<nat> {
    if i + 1 < |w| then Some(w[i + 1]) else None
  }

  /** Following the links from `head` visits exactly `w` and stops at `tail`. */
  ghost predicate Chain(q: WaitQueue, w: seq<nat>, links: seq<Option<nat>>) {
    && q.head == (if w == [] then None else Some(w[0]))
    && q.tail == (if w == [] then None else Some(w[|w| - 1]))
    && forall i :: 0 <= i < |w| ==> w[i] < |links| && links[w[i]] == NextIn(w, i)
  }

  /** No process waits twice: not in two queues, and not twice in one. */
  ghost predicate Separate(waiting: seq<seq<nat>>) {
    forall a, i, b, j ::
      (0 <= a < |waiting| && 0 <= i < |waiting[a]| && 0 <= b < |waiting| && 0 <= j < |waiting[b]|
       && waiting[a][i] == waiting[b][j]) ==> a == b && i == j
  }

  ghost predicate Waits(waiting: seq<seq<nat>>, slot: nat) {
    exists a :: 0 <= a < |waiting| && slot in waiting[a]
  }

  class WaitTable {
    const queues: array<WaitQueue>
    const links: array<Option<nat>>
    ghost var waiting: seq<seq<nat>>

    ghost predicate Valid()
      reads this, queues, links
    {
      && queues.Length == |waiting| == MAX_ENDPOINTS && links.Length == MAX_PROCESSES
      && (forall a :: 0 <= a < MAX_ENDPOINTS ==> Chain(queues[a], waiting[a], links[..]))
      && Separate(waiting)
    }

    constructor ()
      ensures Valid() && fresh(queues) && fresh(links)
      ensures waiting == seq(MAX_ENDPOINTS, _ => []) && forall a :: 0 <= a < MAX_ENDPOINTS ==> !queues[a].areSenders
    {
      queues := new WaitQueue[MAX_ENDPOINTS](_ => WaitQueue(None, None, false));
      links := new Option<nat>[MAX_PROCESSES](_ => None);
      waiting := seq(MAX_ENDPOINTS, _ => []);
    }

    /** Append to one queue; every other queue denotes what it did. */
    method Enqueue(id: nat, slot: nat, areSenders: bool)
      requires Valid() && id < MAX_ENDPOINTS && slot < MAX_PROCESSES && !Waits(waiting, slot)
      modifies this`waiting, queues, links
      ensures Valid() && waiting == old(waiting)[id := old(waiting)[id] + [slot]]
      ensures forall a :: 0 <= a < MAX_ENDPOINTS ==>
        queues[a].areSenders == if a == id then areSenders else old(queues[a].areSenders)
    {
      hide Separate, Waits;
      var q := queues[id];
      links[slot] := None;
      match q.tail {
        case Some(tail) => links[tail] := Some(slot);
        case None => q := q.(head := Some(slot));
      }
      queues[id] := q.(tail := Some(slot), areSenders := areSenders);
      ghost var was := waiting;
      SeparateAppend(was, id, slot);
      waiting := waiting[id := waiting[id] + [slot]];
      forall a | 0 <= a < MAX_ENDPOINTS ensures Chain(queues[a], waiting[a], links[..]) {
        LinkedAfterEnqueue(old(queues[a]), was, a, id, slot, areSenders, old(links[..]));
      }
    }

    /** Remove and return the head of one queue; every other queue denotes what it
        did. */
    method Dequeue(id: nat) returns (r: Option<nat>)
      requires Valid() && id < MAX_ENDPOINTS
      modifies this`waiting, queues
      ensures Valid()
      ensures r == if old(waiting)[id] == [] then None else Some(old(waiting)[id][0])
      ensures waiting == if r.None? then old(waiting) else old(waiting)[id := old(waiting)[id][1..]]
      ensures forall a :: 0 <= a < MAX_ENDPOINTS ==> queues[a].areSenders == old(queues[a].areSenders)
    {
      var q := queues[id];
      if q.head.None? {
        return None;
      }
      var head := q.head.value;
      q := q.(head := links[head]);
      if q.head.None? {
        q := q.(tail := None);
      }
      queues[id] := q;
      ChainTail(old(queues[id]), waiting[id], links[..]);
      SeparateTail(waiting, id);
      waiting := waiting[id := waiting[id][1..]];
      return Some(head);
    }

    /** The rendezvous match: take the head only if it is on the wanted side. */
    method TakeIf(id: nat, wantSenders: bool) returns (r: Option<nat>)
      requires Valid() && id < MAX_ENDPOINTS
      modifies this`waiting, queues
      ensures Valid()
      ensures r == if old(waiting)[id] == [] || old(queues[id].areSenders) != wantSenders then None
                   else Some(old(waiting)[id][0])
      ensures waiting == if r.None? then old(waiting) else old(waiting)[id := old(waiting)[id][1..]]
      ensures forall a :: 0 <= a < MAX_ENDPOINTS ==> queues[a].areSenders == old(queues[a].areSenders)
    {
      if queues[id].head.Some? && queues[id].areSenders == wantSenders {
        r := Dequeue(id);
      } else {
        r := None;
      }
    }

    /** A freed endpoint's queue is reset; nobody was in it. */
    method Reset(id: nat)
      requires Valid() && id < MAX_ENDPOINTS && waiting[id] == []
      modifies queues
      ensures Valid()
      ensures forall a :: 0 <= a < MAX_ENDPOINTS ==>
        queues[a].areSenders == if a == id then false else old(queues[a].areSenders)
    {
      queues[id] := WaitQueue(None, None, false);
    }

    /** The dead process's link, cleared for hygiene: it was in no queue. */
    method ForgetLink(slot: nat)
      requires Valid() && slot < MAX_PROCESSES && !Waits(waiting, slot)
      modifies links
      ensures Valid()
    {
      links[slot] := None;
      forall a | 0 <= a < MAX_ENDPOINTS ensures Chain(queues[a], waiting[a], links[..]) {
        assert slot !in waiting[a];
      }
    }
  }

  /** The links alone determine who waits: two readings of one queue agree. */
  lemma {:induction false} ChainIsUnique(q: WaitQueue, w1: seq<nat>, w2: seq<nat>, links: seq<Option<nat>>)
    requires Chain(q, w1, links) && Chain(q, w2, links)
    ensures w1 == w2
    decreases |w1|
  {
    if w1 == [] || w2 == [] {
    } else {
      var rest := WaitQueue(links[w1[0]], if |w1| == 1 then None else q.tail, q.areSenders);
      ChainTail(q, w1, links);
      ChainTail(q, w2, links);
      assert |w1| == 1 <==> |w2| == 1;
      ChainIsUnique(rest, w1[1..], w2[1..], links);
      assert w1 == [w1[0]] + w1[1..] && w2 == [w2[0]] + w2[1..];
    }
  }

  lemma ChainTail(q: WaitQueue, w: seq<nat>, links: seq<Option<nat>>)
    requires Chain(q, w, links) && w != []
    ensures Chain(WaitQueue(links[w[0]], if |w| == 1 then None else q.tail, q.areSenders), w[1..], links)
    ensures |w| == 1 <==> links[w[0]].None?
  {
    assert links[w[0]] == NextIn(w, 0);
    forall i | 0 <= i < |w| - 1 ensures links[w[1..][i]] == NextIn(w[1..], i)
    {
      assert w[1..][i] == w[i + 1];
    }
  }

  lemma SeparateTail(waiting: seq<seq<nat>>, id: nat)
    requires Separate(waiting) && id < |waiting| && waiting[id] != []
    ensures Separate(waiting[id := waiting[id][1..]])
    ensures !Waits(waiting[id := waiting[id][1..]], waiting[id][0])
  {
    var after := waiting[id := waiting[id][1..]];
    assert forall i :: 0 <= i < |after[id]| ==> after[id][i] == waiting[id][i + 1];
  }

  lemma SeparateAppend(waiting: seq<seq<nat>>, id: nat, slot: nat)
    requires Separate(waiting) && id < |waiting| && !Waits(waiting, slot)
    ensures Separate(waiting[id := waiting[id] + [slot]])
  {
    assert forall a :: 0 <= a < |waiting| ==> slot !in waiting[a];
  }

  /** The link array once `slot` has been appended after `w`. */
  function LinksWith(links: seq<Option<nat>>, w: seq<nat>, slot: nat): (r: seq<Option<nat>>)
    requires slot < |links| && forall i :: 0 <= i < |w| ==> w[i] < |links|
  {
    if w == [] then links[slot := None] else links[slot := None][w[|w| - 1] := Some(slot)]
  }

  lemma LinkedAfterEnqueue(q: WaitQueue, waiting: seq<seq<nat>>, a: nat, id: nat, slot: nat, areSenders: bool,
                           links: seq<Option<nat>>)
    requires a < |waiting| && id < |waiting| && Separate(waiting) && !Waits(waiting, slot)
    requires Chain(q, waiting[a], links) && slot < |links|
    requires forall i :: 0 <= i < |waiting[id]| ==> waiting[id][i] < |links|
    ensures a != id ==> Chain(q, waiting[a], LinksWith(links, waiting[id], slot))
    ensures a == id ==>
      Chain(WaitQueue(if waiting[id] == [] then Some(slot) else q.head, Some(slot), areSenders),
            waiting[id] + [slot], LinksWith(links, waiting[id], slot))
  {
    hide Separate, Waits;
    var w := waiting[a];
    var last := |waiting[id]| - 1;
    NotElsewhere(waiting, a, id, slot);
    if a == id {
      ChainAppended(q, w, slot, areSenders, links);
    } else {
      var after := LinksWith(links, waiting[id], slot);
      assert forall i :: 0 <= i < |w| ==> after[w[i]] == links[w[i]];
    }
  }

  /** The new slot, and the one whose link changes, lie in no other queue. */
  lemma NotElsewhere(waiting: seq<seq<nat>>, a: nat, id: nat, slot: nat)
    requires a < |waiting| && id < |waiting| && Separate(waiting) && !Waits(waiting, slot)
    ensures slot !in waiting[a]
    ensures a != id && waiting[id] != [] ==> waiting[id][|waiting[id]| - 1] !in waiting[a]
    ensures forall i, j :: 0 <= i < j < |waiting[a]| ==> waiting[a][i] != waiting[a][j]
  {
  }

  lemma ChainAppended(q: WaitQueue, w: seq<nat>, slot: nat, areSenders: bool, links: seq<Option<nat>>)
    requires Chain(q, w, links) && slot < |links| && slot !in w
    requires forall i, j :: 0 <= i < j < |w| ==> w[i] != w[j]
    ensures Chain(WaitQueue(if w == [] then Some(slot) else q.head, Some(slot), areSenders), w + [slot], LinksWith(links, w, slot))
  {
    var after := LinksWith(links, w, slot);
    forall i | 0 <= i < |w| + 1 ensures (w + [slot])[i] < |links| && after[(w + [slot])[i]] == NextIn(w + [slot], i) {
      if i < |w| {
        assert (w + [slot])[i] == w[i] && links[w[i]] == NextIn(w, i);
      }
    }
  }
}
