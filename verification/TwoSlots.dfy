/** The retransmission queue while only its first two slots are in use, with a retry limit of
    one and no round trip measured yet: small enough to follow call by call. */
module TwoSlots {
  import opened Bits
  import opened Outcomes
  import opened Dedup
  import opened Retransmit

  ghost predicate At(q: Queue, a: Slot, b: Slot, next: u32) {
    && |q.slots| == MAX_IN_FLIGHT && q.slots[0] == a && q.slots[1] == b
    && (forall i :: 2 <= i < |q.slots| ==> q.slots[i].None?)
    && q.rto == FRESH_RTO && q.maxRetries == 1 && q.nextId == next
    && CWND_FLOOR <= q.cwnd <= CWND_CEILING
  }

  predicate Recent(slot: Slot, next: u32) {
    slot.Some? ==> WrapSub(next, slot.value.id) < ACK_WINDOW
  }

  // ---- Slots that are empty count for nothing ----------------------------------------------

  lemma {:induction false} OccupiedTwo(slots: seq<Slot>)
    requires |slots| >= 2 && forall i :: 2 <= i < |slots| ==> slots[i].None?
    ensures Occupied(slots) == (if slots[0].Some? then 1 else 0) + (if slots[1].Some? then 1 else 0)
  {
    if |slots| == 2 {
      assert slots[..1][..0] == [] && Occupied(slots[..1]) == if slots[0].Some? then 1 else 0;
    } else {
      OccupiedTwo(slots[..|slots| - 1]);
    }
  }

  lemma {:induction false} PollTwo(q: Queue, now: u64, room: nat, n: nat)
    requires 2 <= n <= |q.slots| && forall i :: 2 <= i < |q.slots| ==> q.slots[i].None?
    ensures PollDue(q, now, room, n) == PollDue(q, now, room, 2)
  {
    if n > 2 { PollTwo(q, now, room, n - 1); }
  }

  lemma {:induction false} AckTwo(slots: seq<Slot>, rto: Rto, ack: Ack, now: u64, n: nat)
    requires 2 <= n <= |slots| && forall i :: 2 <= i < |slots| ==> slots[i].None?
    ensures AckedIds(slots, ack, n) == AckedIds(slots, ack, 2)
    ensures AckedRto(slots, rto, ack, now, n) == AckedRto(slots, rto, ack, now, 2)
  {
    if n > 2 { AckTwo(slots, rto, ack, now, n - 1); }
  }

  // ---- Registering --------------------------------------------------------------------------

  function Entry(id: u32, now: u64): InFlight {
    InFlight(id, SaturatingAdd64(now, INITIAL_RTO_MS), now, 0)
  }

  lemma RegisterAt(q: Queue, a: Slot, b: Slot, next: u32, now: u64)
    requires At(q, a, b, next) && Recent(a, next) && Recent(b, next) && (a.None? || b.None?)
    ensures RegisterStep(q, now).Ok?
    ensures var r, e := RegisterStep(q, now).value.0, Some(Entry(next, now));
            if a.None? then At(r, e, b, (next + 1) % U32) else At(r, a, e, (next + 1) % U32)
  {
    OccupiedTwo(q.slots);
    assert q.Window() >= 2;
  }

  // ---- Polling ------------------------------------------------------------------------------

  predicate Ripe(slot: Slot, now: u64) {
    slot.Some? && slot.value.deadline <= now
  }

  function Said(slot: Slot, now: u64): seq<Due> {
    if Ripe(slot, now) then [Verdict(slot.value, 1)] else []
  }

  function Polled(slot: Slot, now: u64): Slot {
    if !Ripe(slot, now) then slot
    else if slot.value.retries >= 1 then None
    else Some(InFlight(slot.value.id, SaturatingAdd64(now, 400), now, 1))
  }

  lemma FirstBackoff()
    ensures FRESH_RTO.WithBackoff(1) == 400
  {
    assert Pow2(1) == 2;
  }

  lemma SaidTwo(q: Queue, a: Slot, b: Slot, next: u32, now: u64, room: nat)
    requires At(q, a, b, next) && room >= 2
    ensures PollDue(q, now, room, |q.slots|) == Said(a, now) + Said(b, now)
    ensures forall i :: 0 <= i < |q.slots| ==> (Fires(q, now, room, i) <==> Ripe(q.slots[i], now))
  {
    PollTwo(q, now, room, |q.slots|);
    assert PollDue(q, now, room, 0) == [];
    assert PollDue(q, now, room, 1) == Said(a, now);
    assert PollDue(q, now, room, 2) == Said(a, now) + Said(b, now);
  }

  lemma PollAt(q: Queue, a: Slot, b: Slot, next: u32, now: u64, room: nat)
    requires At(q, a, b, next) && room >= 2
    ensures At(PollStep(q, now, room), Polled(a, now), Polled(b, now), next)
  {
    SaidTwo(q, a, b, next, now, room);
    FirstBackoff();
    var slots := PolledSlots(q, now, room, |q.slots|);
    assert slots[0] == Polled(a, now) && slots[1] == Polled(b, now);
  }

  // ---- Acknowledging ---------------------------------------------------------------------------

  function Left(slot: Slot, ack: Ack): Slot {
    if Hit(slot, ack) then None else slot
  }

  lemma {:induction false} StillInRange(cwnd: nat, ssthresh: nat, n: nat)
    requires CWND_FLOOR <= cwnd <= CWND_CEILING
    ensures CWND_FLOOR <= DeliveredTimes(cwnd, ssthresh, n) <= CWND_CEILING
  {
    if n > 0 { StillInRange(cwnd, ssthresh, n - 1); }
  }

  /** An acknowledgement of messages already resent, which measures nothing. */
  lemma AckAt(q: Queue, a: Slot, b: Slot, next: u32, ack: Ack, now: u64)
    requires At(q, a, b, next)
    requires (Hit(a, ack) ==> a.value.retries > 0) && (Hit(b, ack) ==> b.value.retries > 0)
    ensures At(AckStep(q, ack, now), Left(a, ack), Left(b, ack), next)
    ensures AckedIds(q.slots, ack, |q.slots|) ==
            (if Hit(a, ack) then [a.value.id] else []) + (if Hit(b, ack) then [b.value.id] else [])
  {
    AckTwo(q.slots, q.rto, ack, now, |q.slots|);
    assert AckedIds(q.slots, ack, 0) == [] && AckedRto(q.slots, q.rto, ack, now, 0) == q.rto;
    assert AckedRto(q.slots, q.rto, ack, now, 1) == q.rto && AckedRto(q.slots, q.rto, ack, now, 2) == q.rto;
    assert AckedIds(q.slots, ack, 1) == if Hit(a, ack) then [a.value.id] else [];
    StillInRange(q.cwnd, q.ssthresh, |AckedIds(q.slots, ack, |q.slots|)|);
  }
}
