/** Capabilities, the rules for lending and releasing them, and the fixed-size
    table that holds them (kernel/src/capability.rs). */
module Capabilities {
  import opened Prelude

  const MAX_CAPS: nat := 16

  datatype Right = MayRead | MayWrite | MayMap | MayConsume | MaySend | MayRecv

  datatype CapObject =
    | Frame(addr: nat)
    | CpuTime(budget: nat)
    | EndpointCap(id: nat)
    | ReplyTo(caller: nat)
    | BlockRange(disk: nat, start: nat, count: nat)
    | EventSource(source: nat)
    | RingCap(ring: nat)
    | Framebuffer(base: nat, width: nat, height: nat, stride: nat, bytesPerPixel: nat, format: nat)
    | BoundDevice(dev: nat)

  /** Where a lent capability goes home to: the lender, and the slot it left. */
  datatype Origin = Origin(lender: nat, home: nat)

  datatype Capability = Capability(target: CapObject, rights: set<Right>, origin: Option<Origin>)

  // ----- the pure rules -----

  /** The root-lender rule: a first loan records its giver, a further hop keeps
      the claim, and only the hop back to the lender clears it. */
  function LentTo(cap: Capability, source: Origin, dest: nat): (r: Capability)
    ensures r.target == cap.target && r.rights == cap.rights
  {
    match cap.origin
    case Some(o) => if o.lender == dest then cap.(origin := None) else cap
    case None => cap.(origin := Some(source))
  }

  predicate Reclaimable(target: CapObject) {
    target.Framebuffer? || target.BlockRange? || target.EventSource?
  }

  predicate LendReserves(cap: Capability) {
    cap.origin.None? && Reclaimable(cap.target)
  }

  datatype ReleaseAction =
    | FreeFrame(addr: nat)
    | ReleaseRing(ring: nat)
    | DropEndpoint
    | UnmapFramebuffer
    | ReclaimTo(origin: Origin)
    | DropSlot
    | UnbindDevice(dev: nat)
    | Refuse

  function OnRelease(cap: Capability): ReleaseAction {
    if Reclaimable(cap.target) && cap.origin.Some? then ReleaseAction.ReclaimTo(cap.origin.value)
    else match cap.target
         case Frame(addr) => FreeFrame(addr)
         case RingCap(ring) => ReleaseRing(ring)
         case EndpointCap(_) => DropEndpoint
         case ReplyTo(_) => Refuse
         case Framebuffer(_, _, _, _, _, _) => UnmapFramebuffer
         case BoundDevice(dev) => UnbindDevice(dev)
         case _ => DropSlot
  }

  /** Where a dying holder's capability goes, and what it is once there. */
  function ReclaimTarget(cap: Capability, dying: nat): Option<(Origin, Capability)> {
    match OnRelease(cap)
    case ReclaimTo(o) => Some((o, LentTo(cap, Origin(dying, o.home), o.lender)))
    case _ => None
  }

  /** Lend time and death time agree: a slot is held open exactly when the loan it
      starts would be sent back to that slot if the borrower died, and what is sent
      back is what was lent. */
  lemma ReservedExactlyIfReturned(cap: Capability, source: Origin, dest: nat, dying: nat)
    requires cap.origin.None?
    ensures LendReserves(cap) <==> ReclaimTarget(LentTo(cap, source, dest), dying) == Some((source, cap))
    ensures !LendReserves(cap) <==> ReclaimTarget(LentTo(cap, source, dest), dying) == None
  {
    assert LentTo(cap, source, dest).(origin := None) == cap;
  }

  /** One stop of a capability's journey: who holds it, and in which slot. */
  datatype Stop = Stop(holder: nat, slot: nat)

  /** The capability as the last holder of the journey has it. */
  function Carried(cap: Capability, stops: seq<Stop>): Capability
    requires stops != []
  {
    if |stops| == 1 then cap
    else
      var n := |stops| - 1;
      LentTo(Carried(cap, stops[..n]), Origin(stops[n - 1].holder, stops[n - 1].slot), stops[n].holder)
  }

  /** However many hands a loan passes through, the claim stays with the process
      that owned it and the slot it left, until that process has it again. */
  lemma {:induction false} RootLenderKeepsTheClaim(cap: Capability, stops: seq<Stop>)
    requires cap.origin.None? && |stops| >= 2
    requires forall k :: 0 < k < |stops| - 1 ==> stops[k].holder != stops[0].holder
    ensures Carried(cap, stops)
         == if |stops| > 2 && stops[|stops| - 1].holder == stops[0].holder then cap
            else cap.(origin := Some(Origin(stops[0].holder, stops[0].slot)))
  {
    var n := |stops| - 1;
    if n == 1 {
      assert Carried(cap, stops[..1]) == cap;
    } else {
      RootLenderKeepsTheClaim(cap, stops[..n]);
    }
  }

  // ----- tables -----

  datatype Slots = Slots(caps: seq<Option<Capability>>, reserved: seq<bool>)

  type Table = t: Slots | |t.caps| == MAX_CAPS && |t.reserved| == MAX_CAPS
    witness Slots(seq(MAX_CAPS, _ => None), seq(MAX_CAPS, _ => false))

  function NoCaps(): Table {
    Slots(seq(MAX_CAPS, _ => None), seq(MAX_CAPS, _ => false))
  }

  /** Empty, and not held open for a returning capability. */
  predicate Available(t: Table, i: nat)
    requires i < MAX_CAPS
  {
    t.caps[i].None? && !t.reserved[i]
  }

  function FirstFree(t: Table, from: nat := 0): (r: Option<nat>)
    requires from <= MAX_CAPS
    ensures r.Some? ==> from <= r.value < MAX_CAPS && Available(t, r.value)
    ensures forall i :: from <= i < (if r.Some? then r.value else MAX_CAPS) ==> !Available(t, i)
    decreases MAX_CAPS - from
  {
    if from == MAX_CAPS then None
    else if Available(t, from) then Some(from)
    else FirstFree(t, from + 1)
  }

  predicate HasRoom(t: Table) {
    FirstFree(t).Some?
  }

  function Put(t: Table, i: nat, cap: Capability): Table
    requires i < MAX_CAPS
  {
    t.(caps := t.caps[i := Some(cap)])
  }

  function Install(t: Table, cap: Capability): (Table, Option<nat>) {
    match FirstFree(t)
    case Some(i) => (Put(t, i, cap), Some(i))
    case None => (t, None)
  }

  /** A reservation for this slot is open and the slot is empty. */
  predicate AwaitsReturn(t: Table, slot: nat) {
    slot < MAX_CAPS && t.reserved[slot] && t.caps[slot].None?
  }

  function Landed(t: Table, slot: nat, cap: Capability): Table
    requires slot < MAX_CAPS
  {
    Slots(t.caps[slot := Some(cap)], t.reserved[slot := false])
  }

  /** The rule for an arriving capability: its own reservation first. */
  function InstallHome(t: Table, cap: Capability, prior: Option<Origin>, dest: nat): (Table, Option<nat>) {
    if prior.Some? && prior.value.lender == dest && AwaitsReturn(t, prior.value.home)
    then (Landed(t, prior.value.home, cap), Some(prior.value.home))
    else Install(t, cap)
  }

  /** `reclaim_to(home)` and then `reclaim`: the death and release route. */
  function SendHome(t: Table, home: nat, cap: Capability): (Table, Option<nat>) {
    if AwaitsReturn(t, home) then (Landed(t, home, cap), Some(home)) else Install(t, cap)
  }

  function Held(t: Table, slot: nat): Option<Capability> {
    if slot < MAX_CAPS then t.caps[slot] else None
  }

  /** `lookup`: the capability in a slot, if it carries the right. */
  function Granted(t: Table, slot: nat, right: Right): Option<CapObject> {
    match Held(t, slot)
    case Some(cap) => if right in cap.rights then Some(cap.target) else None
    case None => None
  }

  function Without(t: Table, slot: nat): Table
    requires slot < MAX_CAPS
  {
    t.(caps := t.caps[slot := None])
  }

  /** The giver's table once a loan from `slot` has started. */
  function LentFrom(t: Table, slot: nat): Table
    requires slot < MAX_CAPS && t.caps[slot].Some?
  {
    if LendReserves(t.caps[slot].value)
    then Slots(t.caps[slot := None], t.reserved[slot := true])
    else Without(t, slot)
  }

  /** The giver's table after a failed spawn took the capability back. */
  function TakenBack(t: Table, slot: nat, cap: Capability): Table
    requires slot < MAX_CAPS
  {
    if AwaitsReturn(t, slot) then Landed(t, slot, cap)
    else Install(t.(reserved := t.reserved[slot := false]), cap).0
  }

  function Forgotten(c: Option<Capability>, lender: nat): Option<Capability> {
    if c.Some? && c.value.origin.Some? && c.value.origin.value.lender == lender
    then Some(c.value.(origin := None)) else c
  }

  /** Every claim of a departing lender is gone; nothing else changed. */
  function ClaimsCleared(t: Table, lender: nat): Table {
    t.(caps := seq(MAX_CAPS, i requires 0 <= i < MAX_CAPS => Forgotten(t.caps[i], lender)))
  }

  /** The table as the kernel keeps it: two fixed arrays updated in place. */
  class CapTable {
    const slots: array<Option<Capability>>
    const reserved: array<bool>

    ghost predicate Valid() {
      slots.Length == MAX_CAPS && reserved.Length == MAX_CAPS
    }

    ghost function View(): Table
      requires Valid()
      reads slots, reserved
    {
      Slots(slots[..], reserved[..])
    }

    constructor ()
      ensures Valid() && fresh(slots) && fresh(reserved) && View() == NoCaps()
    {
      slots := new Option<Capability>[MAX_CAPS](_ => None);
      reserved := new bool[MAX_CAPS](_ => false);
    }

    method ClaimSlot(slot: nat)
      requires Valid()
      modifies reserved
      ensures View() == if slot < MAX_CAPS then old(View()).(reserved := old(View()).reserved[slot := true]) else old(View())
    {
      if slot < MAX_CAPS {
        reserved[slot] := true;
      }
    }

    /** `clear_reservation`. */
    method Unclaim(slot: nat)
      requires Valid()
      modifies reserved
      ensures View() == if slot < MAX_CAPS then old(View()).(reserved := old(View()).reserved[slot := false]) else old(View())
    {
      if slot < MAX_CAPS {
        reserved[slot] := false;
      }
    }

    method PlaceFirst(cap: Capability) returns (landing: Option<nat>)
      requires Valid()
      modifies slots
      ensures (View(), landing) == Install(old(View()), cap)
    {
      for i := 0 to MAX_CAPS
        invariant View() == old(View())
        invariant forall k :: 0 <= k < i ==> !Available(View(), k)
      {
        if slots[i].None? && !reserved[i] {
          FirstFreeIs(View(), 0, i);
          slots[i] := Some(cap);
          return Some(i);
        }
      }
      return None;
    }

    method ReclaimTo(slot: nat, cap: Capability) returns (landing: Option<nat>)
      requires Valid()
      modifies slots, reserved
      ensures landing == if AwaitsReturn(old(View()), slot) then Some(slot) else None
      ensures View() == if AwaitsReturn(old(View()), slot) then Landed(old(View()), slot, cap) else old(View())
    {
      if slot >= MAX_CAPS || !reserved[slot] || slots[slot].Some? {
        return None;
      }
      slots[slot] := Some(cap);
      reserved[slot] := false;
      return Some(slot);
    }

    method PlaceHome(cap: Capability, prior: Option<Origin>, dest: nat) returns (landing: Option<nat>)
      requires Valid()
      modifies slots, reserved
      ensures (View(), landing) == InstallHome(old(View()), cap, prior, dest)
    {
      if prior.Some? && prior.value.lender == dest {
        landing := ReclaimTo(prior.value.home, cap);
        if landing.Some? {
          return landing;
        }
      }
      landing := PlaceFirst(cap);
    }

    method Revoke(slot: nat) returns (cap: Option<Capability>)
      requires Valid()
      modifies slots
      ensures cap == Held(old(View()), slot)
      ensures View() == if slot < MAX_CAPS then Without(old(View()), slot) else old(View())
    {
      if slot >= MAX_CAPS {
        return None;
      }
      cap := slots[slot];
      slots[slot] := None;
    }

    /** `revoke_and_unmap_for_lend`, less the page tables. */
    method RevokeForLend(slot: nat) returns (cap: Option<Capability>)
      requires Valid()
      modifies slots, reserved
      ensures cap == Held(old(View()), slot)
      ensures View() == if cap.Some? then LentFrom(old(View()), slot) else old(View())
    {
      if slot >= MAX_CAPS || slots[slot].None? {
        return None;
      }
      var reserves := LendReserves(slots[slot].value);
      cap := Revoke(slot);
      if reserves {
        ClaimSlot(slot);
      }
    }

    /** A loan that did not happen after all: the capability back in its own slot, and
        the reservation lifted. */
    method PutBack(slot: nat, cap: Capability)
      requires Valid() && slot < MAX_CAPS
      modifies slots, reserved
      ensures View() == TakenBack(old(View()), slot, cap)
    {
      var landing := ReclaimTo(slot, cap);
      if landing.None? {
        Unclaim(slot);
        landing := PlaceFirst(cap);
      }
    }

    /** The table of a process that is gone. */
    method Clear()
      requires Valid()
      modifies slots, reserved
      ensures View() == NoCaps()
    {
      for i := 0 to MAX_CAPS
        invariant forall k :: 0 <= k < i ==> slots[k].None? && !reserved[k]
      {
        slots[i] := None;
        reserved[i] := false;
      }
    }

    method ClearOrigin(lender: nat) returns (cleared: nat)
      requires Valid()
      modifies slots
      ensures View() == ClaimsCleared(old(View()), lender)
      ensures cleared == |set i | 0 <= i < MAX_CAPS && old(slots[i]) != slots[i]|
    {
      cleared := 0;
      ghost var changed: set<nat> := {};
      for i := 0 to MAX_CAPS
        invariant reserved[..] == old(reserved[..])
        invariant forall k :: 0 <= k < i ==> slots[k] == Forgotten(old(slots[k]), lender)
        invariant forall k :: i <= k < MAX_CAPS ==> slots[k] == old(slots[k])
        invariant changed == set k | 0 <= k < i && old(slots[k]) != slots[k]
        invariant cleared == |changed|
      {
        if slots[i].Some? && slots[i].value.origin.Some? && slots[i].value.origin.value.lender == lender {
          slots[i] := Some(slots[i].value.(origin := None));
          cleared := cleared + 1;
          changed := changed + {i};
        }
      }
      assert changed == set k | 0 <= k < MAX_CAPS && old(slots[k]) != slots[k];
    }
  }

  lemma FirstFreeIs(t: Table, from: nat, i: nat)
    requires from <= i < MAX_CAPS && Available(t, i)
    requires forall k :: from <= k < i ==> !Available(t, k)
    ensures FirstFree(t, from) == Some(i)
  {
  }
}
