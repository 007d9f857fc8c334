/** Raw input events and the word they are packed into (kernel/src/input.rs). */
module InputEvents {
  import opened Prelude

  const EVENT_KEY: nat := 1
  const EVENT_MOUSE_MOVE: nat := 2
  /** Bit 31 of a completion's status: events were lost before this one. */
  const EVENT_DROPPED: nat := 0x8000_0000

  type SignedByte = b: int | -128 <= b < 128

  datatype Event = Event(kind: nat, code: nat, value: nat)

  function Key(scancode: Byte): Event {
    Event(EVENT_KEY, scancode, if scancode < 128 then 1 else 0)
  }

  /** `dx`, `dy` as bytes in two's complement; seven bits of button mask. */
  function MouseMove(dx: SignedByte, dy: SignedByte, buttons: Byte): Event {
    Event(EVENT_MOUSE_MOVE, dx % 256 * 256 + dy % 256, buttons % 128)
  }

  /** kind in bits 0..8, code in 8..24, value in 24..32. */
  function Pack(e: Event): nat {
    e.kind + e.code * 256 + e.value * 0x100_0000
  }

  function Unpack(word: nat): Event {
    Event(word % 256, word / 256 % 65536, word / 0x100_0000)
  }

  function AsSigned(b: Byte): SignedByte {
    if b < 128 then b else b - 256
  }

  predicate Wired(e: Event) {
    0 < e.kind < 256 && e.code < 65536 && e.value < 128
  }

  /** Everything the drivers build is wired: a nonzero kind and a clear top bit. */
  lemma DriversWireEvents(scancode: Byte, dx: SignedByte, dy: SignedByte, buttons: Byte)
    ensures Wired(Key(scancode)) && Wired(MouseMove(dx, dy, buttons))
  {
  }

  /** Packing loses nothing, leaves bit 31 clear, and is never the zero word that
      means a failed subscription. */
  lemma PackRoundTrip(e: Event)
    requires Wired(e)
    ensures Unpack(Pack(e)) == e && 0 < Pack(e) < EVENT_DROPPED
  {
    var word := Pack(e);
    assert word == e.kind + 256 * (e.code + 65536 * e.value);
    assert word / 256 == e.code + 65536 * e.value;
  }

  /** A reader that strips the drop flag has the event back, flagged or not. */
  lemma FlagIsSeparate(e: Event, flagged: bool)
    requires Wired(e)
    ensures var word := Pack(e) + if flagged then EVENT_DROPPED else 0;
            Unpack(word % EVENT_DROPPED) == e && (word >= EVENT_DROPPED <==> flagged) && word < 0x1_0000_0000
  {
    hide Pack, Unpack;
    PackRoundTrip(e);
    StripFlag(Pack(e), flagged);
  }

  lemma StripFlag(word: nat, flagged: bool)
    requires word < EVENT_DROPPED
    ensures (word + if flagged then EVENT_DROPPED else 0) % EVENT_DROPPED == word
  {
  }

  /** The motion deltas survive the packing with their signs. */
  lemma DeltasSurvive(dx: SignedByte, dy: SignedByte, buttons: Byte)
    ensures var e := Unpack(Pack(MouseMove(dx, dy, buttons)));
            && AsSigned(e.code / 256) == dx && AsSigned(e.code % 256) == dy && e.value == buttons % 128
  {
    PackRoundTrip(MouseMove(dx, dy, buttons));
    assert (dx % 256 * 256 + dy % 256) / 256 == dx % 256;
  }
}
