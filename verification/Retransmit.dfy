/** The sender's half of selective repeat: the timeout estimator, the congestion
    window and the 32-slot queue of unacknowledged messages. */
module Retransmit {
  import opened Bits
  import opened Outcomes
  import opened Dedup

  const MAX_IN_FLIGHT: nat := 32
  const MAX_RETRIES: u8 := 5
  const INITIAL_RTO_MS: nat := 200
  const MIN_RTO_MS: nat := 20
  const MAX_RTO_MS: nat := 5_000
  const CWND_SCALE: nat := 256
  const INITIAL_CWND: nat := 4
  const MIN_CWND: nat := 2
  const CWND_FLOOR: nat := MIN_CWND * CWND_SCALE
  const CWND_CEILING: nat := MAX_IN_FLIGHT * CWND_SCALE

  function SaturatingAdd64(a: u64, b: nat): u64 { Min(a + b, U64 - 1) }

  function Clamp(x: nat, lo: nat, hi: nat): nat { if x < lo then lo else Min(x, hi) }

  /** The RFC 6298 estimator. */
  datatype Rto = Rto(smoothed: Option<u32>, variation: u32) {

    function Current(): (ms: nat)
      ensures MIN_RTO_MS <= ms <= MAX_RTO_MS
    {
      match smoothed
      case None => INITIAL_RTO_MS
      case Some(srtt) => Clamp(Min(srtt + Min(variation * 4, U32 - 1), U32 - 1), MIN_RTO_MS, MAX_RTO_MS)
    }

    /** Folds in a measurement. Both averages stay in 32 bits, so the narrowing
        in the 64-bit arithmetic loses nothing. */
    function Sample(rtt: u32): Rto {
      match smoothed
      case None => Rto(Some(rtt), rtt / 2)
      case Some(srtt) =>
        var delta := if srtt < rtt then rtt - srtt else srtt - rtt;
        Rto(Some((srtt * 7 + rtt) / 8), (variation * 3 + delta) / 4)
    }

    function WithBackoff(retries: nat): nat {
      Min(Min(Current() * Pow2(Min(retries, 5)), U32 - 1), MAX_RTO_MS)
    }
  }

  const FRESH_RTO: Rto := Rto(None, 0)

  datatype InFlight = InFlight(id: u32, deadline: u64, sentAt: u64, retries: u8)

  type Slot = Option<InFlight>

  datatype Due = Resend(id: u32) | GaveUp(id: u32)

  /** The queue's whole state. */
  datatype Queue = Queue(slots: seq<Slot>, rto: Rto, maxRetries: u8, nextId: u32, cwnd: nat, ssthresh: nat) {

    function Window(): nat { Clamp(cwnd / CWND_SCALE, 1, MAX_IN_FLIGHT) }

    /** Whether some outstanding message has been overrun by the whole
        acknowledgement window. */
    predicate Overrun() {
      exists i :: 0 <= i < |slots| && slots[i].Some? && WrapSub(nextId, slots[i].value.id) >= ACK_WINDOW
    }
  }

  function NewQueue(): Queue {
    Queue(seq(MAX_IN_FLIGHT, _ => None), FRESH_RTO, MAX_RETRIES, 0, INITIAL_CWND * CWND_SCALE, CWND_CEILING)
  }

  function Occupied(slots: seq<Slot>): nat {
    if slots == [] then 0 else Occupied(slots[..|slots| - 1]) + if slots[|slots| - 1].Some? then 1 else 0
  }

  /** The first free slot, or the number of slots when there is none. */
  function FirstFree(slots: seq<Slot>): (k: nat)
    ensures k <= |slots|
    ensures k < |slots| ==> slots[k].None?
    ensures forall i :: 0 <= i < k ==> slots[i].Some?
  {
    if slots == [] then 0
    else if slots[0].None? then 0
    else
      var k := FirstFree(slots[1..]);
      assert forall i :: 0 < i < k + 1 ==> slots[i] == slots[1..][i - 1];
      k + 1
  }

  function RegisterStep(q: Queue, now: u64): Result<(Queue, u32)> {
    if q.Overrun() || Occupied(q.slots) >= q.Window() then Err(WindowFull)
    else
      var k := FirstFree(q.slots);
      if k == |q.slots| then Err(WindowFull)
      else
        var entry := InFlight(q.nextId, SaturatingAdd64(now, q.rto.Current()), now, 0);
        Ok((q.(slots := q.slots[k := Some(entry)], nextId := (q.nextId + 1) % U32), q.nextId))
  }

  function Delivered(cwnd: nat, ssthresh: nat): nat {
    Min(if cwnd < ssthresh then cwnd + CWND_SCALE
        else cwnd + Max(CWND_SCALE * CWND_SCALE / Max(cwnd, 1), 1), CWND_CEILING)
  }

  function DeliveredTimes(cwnd: nat, ssthresh: nat, n: nat): nat {
    if n == 0 then cwnd else Delivered(DeliveredTimes(cwnd, ssthresh, n - 1), ssthresh)
  }

  predicate Hit(slot: Slot, ack: Ack) {
    slot.Some? && ack.Covers(slot.value.id)
  }

  function Cleared(slots: seq<Slot>, ack: Ack, n: nat): (r: seq<Slot>)
    ensures |r| == |slots|
    ensures forall i :: 0 <= i < |slots| ==> r[i] == if i < n && Hit(slots[i], ack) then None else slots[i]
  {
    seq(|slots|, i requires 0 <= i < |slots| => if i < n && Hit(slots[i], ack) then None else slots[i])
  }

  /** The identifiers an acknowledgement removes from the first `n` slots. */
  function AckedIds(slots: seq<Slot>, ack: Ack, n: nat): seq<u32>
    requires n <= |slots|
  {
    if n == 0 then []
    else AckedIds(slots, ack, n - 1) + if Hit(slots[n - 1], ack) then [slots[n - 1].value.id] else []
  }

  /** Karn's algorithm: only messages never resent are sampled. */
  function AckedRto(slots: seq<Slot>, rto: Rto, ack: Ack, now: u64, n: nat): Rto
    requires n <= |slots|
  {
    if n == 0 then rto
    else
      var before := AckedRto(slots, rto, ack, now, n - 1);
      if Hit(slots[n - 1], ack) && slots[n - 1].value.retries == 0
      then before.Sample(RoundTrip(slots[n - 1].value, now))
      else before
  }

  function RoundTrip(entry: InFlight, now: u64): u32 {
    Min(if now < entry.sentAt then 0 else now - entry.sentAt, U32 - 1)
  }

  function AckStep(q: Queue, ack: Ack, now: u64): Queue {
    var n := |q.slots|;
    q.(slots := Cleared(q.slots, ack, n),
       rto := AckedRto(q.slots, q.rto, ack, now, n),
       cwnd := DeliveredTimes(q.cwnd, q.ssthresh, |AckedIds(q.slots, ack, n)|))
  }

  /** Whether slot `i` is acted on by a poll whose output holds `room` items. */
  predicate Fires(q: Queue, now: u64, room: nat, i: nat)
    requires i < |q.slots|
    decreases i, 1
  {
    q.slots[i].Some? && q.slots[i].value.deadline <= now && |PollDue(q, now, room, i)| < room
  }

  function PollDue(q: Queue, now: u64, room: nat, n: nat): (due: seq<Due>)
    requires n <= |q.slots|
    ensures |due| <= room
    decreases n, 0
  {
    if n == 0 then []
    else if Fires(q, now, room, n - 1) then
      PollDue(q, now, room, n - 1) + [Verdict(q.slots[n - 1].value, q.maxRetries)]
    else PollDue(q, now, room, n - 1)
  }

  function Verdict(entry: InFlight, maxRetries: u8): Due {
    if entry.retries >= maxRetries then GaveUp(entry.id) else Resend(entry.id)
  }

  function Retried(entry: InFlight, now: u64, rto: Rto): Slot
    requires entry.retries < 255
  {
    Some(entry.(retries := entry.retries + 1,
                sentAt := now,
                deadline := SaturatingAdd64(now, rto.WithBackoff(entry.retries + 1))))
  }

  function PolledSlot(q: Queue, now: u64, room: nat, i: nat): Slot
    requires i < |q.slots|
  {
    if !Fires(q, now, room, i) then q.slots[i]
    else if q.slots[i].value.retries >= q.maxRetries then None
    else Retried(q.slots[i].value, now, q.rto)
  }

  function PolledSlots(q: Queue, now: u64, room: nat, n: nat): (r: seq<Slot>)
    requires n <= |q.slots|
    ensures |r| == |q.slots|
    ensures forall i :: 0 <= i < |r| ==> r[i] == if i < n then PolledSlot(q, now, room, i) else q.slots[i]
  {
    seq(|q.slots|, i requires 0 <= i < |q.slots| => if i < n then PolledSlot(q, now, room, i) else q.slots[i])
  }

  function Collapsed(q: Queue): Queue {
    q.(ssthresh := Max(q.cwnd / 2, CWND_FLOOR), cwnd := CWND_FLOOR)
  }

  predicate AnyResend(due: seq<Due>) {
    exists i :: 0 <= i < |due| && due[i].Resend?
  }

  function PollStep(q: Queue, now: u64, room: nat): Queue {
    var n := |q.slots|;
    var after := q.(slots := PolledSlots(q, now, room, n));
    if AnyResend(PollDue(q, now, room, n)) then Collapsed(after) else after
  }

  function ForgetPathStep(q: Queue): Queue {
    q.(rto := FRESH_RTO, cwnd := INITIAL_CWND * CWND_SCALE, ssthresh := CWND_CEILING)
  }

  function SetMaxRetriesStep(q: Queue, attempts: u8): Queue {
    q.(maxRetries := Max(attempts, 1))
  }

  /** The queue as the sender holds it: a fixed array of slots, updated in place. */
  class RetransmitQueue {
    const slots: array<Slot>
    var rto: Rto
    var maxRetries: u8
    var nextId: u32
    var cwnd: nat
    var ssthresh: nat

    ghost predicate Valid()
      reads this
    {
      slots.Length == MAX_IN_FLIGHT
    }

    ghost function State(): Queue
      reads this, slots
    {
      Queue(slots[..], rto, maxRetries, nextId, cwnd, ssthresh)
    }

    constructor ()
      ensures Valid() && fresh(slots) && State() == NewQueue()
    {
      slots := new Slot[MAX_IN_FLIGHT](_ => None);
      rto := FRESH_RTO;
      maxRetries := MAX_RETRIES;
      nextId := 0;
      cwnd := INITIAL_CWND * CWND_SCALE;
      ssthresh := CWND_CEILING;
      new;
      assert slots[..] == NewQueue().slots;
    }

    method SetMaxRetries(attempts: u8)
      modifies this
      ensures State() == SetMaxRetriesStep(old(State()), attempts)
    {
      maxRetries := if attempts < 1 then 1 else attempts;
    }

    method ForgetPath()
      modifies this
      ensures State() == ForgetPathStep(old(State()))
    {
      rto := FRESH_RTO;
      cwnd := INITIAL_CWND * CWND_SCALE;
      ssthresh := CWND_CEILING;
    }

    method CountInFlight() returns (count: nat)
      ensures count == Occupied(State().slots)
    {
      count := 0;
      for i := 0 to slots.Length
        invariant count == Occupied(slots[..i])
      {
        assert slots[..i + 1][..i] == slots[..i];
        if slots[i].Some? { count := count + 1; }
      }
      assert slots[..slots.Length] == slots[..];
    }

    /** How far the identifiers have run ahead of the oldest outstanding one. */
    method OldestDistance() returns (distance: nat)
      ensures forall i :: 0 <= i < slots.Length && slots[i].Some? ==> WrapSub(nextId, slots[i].value.id) <= distance
      ensures distance > 0 ==>
        exists i :: 0 <= i < slots.Length && slots[i].Some? && WrapSub(nextId, slots[i].value.id) == distance
    {
      distance := 0;
      for i := 0 to slots.Length
        invariant forall j :: 0 <= j < i && slots[j].Some? ==> WrapSub(nextId, slots[j].value.id) <= distance
        invariant distance > 0 ==>
          exists j :: 0 <= j < i && slots[j].Some? && WrapSub(nextId, slots[j].value.id) == distance
      {
        if slots[i].Some? && WrapSub(nextId, slots[i].value.id) > distance {
          distance := WrapSub(nextId, slots[i].value.id);
        }
      }
    }

    method Register(now: u64) returns (r: Result<u32>)
      requires Valid()
      modifies this, slots
      ensures Valid()
      ensures match RegisterStep(old(State()), now)
              case Ok((q, id)) => r == Ok(id) && State() == q
              case Err(e) => r == Err(e) && State() == old(State())
    {
      var distance := OldestDistance();
      if distance >= ACK_WINDOW { return Err(WindowFull); }
      var outstanding := CountInFlight();
      if outstanding >= Clamp(cwnd / CWND_SCALE, 1, MAX_IN_FLIGHT) { return Err(WindowFull); }
      var k := 0;
      while k < slots.Length && slots[k].Some?
        invariant 0 <= k <= slots.Length
        invariant forall i :: 0 <= i < k ==> slots[i].Some?
      {
        k := k + 1;
      }
      assert k == FirstFree(slots[..]);
      if k == slots.Length { return Err(WindowFull); }
      var id := nextId;
      nextId := (nextId + 1) % U32;
      slots[k] := Some(InFlight(id, SaturatingAdd64(now, rto.Current()), now, 0));
      return Ok(id);
    }

    /** Applies an acknowledgement, reporting what it removed in `acked`. */
    method OnAck(ack: Ack, now: u64, acked: array<u32>) returns (reported: nat)
      requires Valid()
      modifies this, slots, acked
      ensures Valid() && State() == AckStep(old(State()), ack, now)
      ensures var ids := AckedIds(old(State()).slots, ack, MAX_IN_FLIGHT);
              reported == Min(|ids|, acked.Length) && acked[..reported] == ids[..reported]
    {
      ghost var was := State();
      var count := 0;
      for i := 0 to slots.Length
        invariant slots[..] == Cleared(was.slots, ack, i)
        invariant rto == AckedRto(was.slots, was.rto, ack, now, i)
        invariant count == |AckedIds(was.slots, ack, i)|
        invariant acked[..Min(count, acked.Length)] == AckedIds(was.slots, ack, i)[..Min(count, acked.Length)]
        invariant State() == was.(slots := slots[..], rto := rto)
      {
        assert slots[i] == was.slots[i];
        if slots[i].None? || !ack.Covers(slots[i].value.id) {
          assert slots[..] == Cleared(was.slots, ack, i + 1);
          continue;
        }
        if slots[i].value.retries == 0 {
          rto := rto.Sample(RoundTrip(slots[i].value, now));
        }
        if count < acked.Length { acked[count] := slots[i].value.id; }
        count := count + 1;
        slots[i] := None;
        assert slots[..] == Cleared(was.slots, ack, i + 1);
      }
      for k := 0 to count
        invariant cwnd == DeliveredTimes(was.cwnd, was.ssthresh, k)
        invariant State() == was.(slots := Cleared(was.slots, ack, MAX_IN_FLIGHT),
                                  rto := AckedRto(was.slots, was.rto, ack, now, MAX_IN_FLIGHT), cwnd := cwnd)
        invariant acked[..Min(count, acked.Length)] == AckedIds(was.slots, ack, MAX_IN_FLIGHT)[..Min(count, acked.Length)]
      {
        cwnd := Delivered(cwnd, ssthresh);
      }
      return Min(count, acked.Length);
    }

    /** Reports what has timed out, resetting its timer or removing it. */
    method Poll(now: u64, out: array<Due>) returns (count: nat)
      requires Valid()
      modifies this, slots, out
      ensures Valid() && State() == PollStep(old(State()), now, out.Length)
      ensures count <= out.Length && out[..count] == PollDue(old(State()), now, out.Length, MAX_IN_FLIGHT)
    {
      ghost var was := State();
      count := 0;
      var lost := false;
      for i := 0 to slots.Length
        invariant slots[..] == PolledSlots(was, now, out.Length, i)
        invariant count <= out.Length && out[..count] == PollDue(was, now, out.Length, i)
        invariant lost == AnyResend(PollDue(was, now, out.Length, i))
        invariant State() == was.(slots := slots[..])
      {
        assert slots[i] == was.slots[i];
        if slots[i].None? || slots[i].value.deadline > now || count >= out.Length {
          assert slots[..] == PolledSlots(was, now, out.Length, i + 1);
          continue;
        }
        var entry := slots[i].value;
        if entry.retries >= maxRetries {
          out[count] := GaveUp(entry.id);
          slots[i] := None;
        } else {
          slots[i] := Retried(entry, now, rto);
          out[count] := Resend(entry.id);
          lost := true;
        }
        count := count + 1;
        assert slots[..] == PolledSlots(was, now, out.Length, i + 1);
        assert out[..count] == PollDue(was, now, out.Length, i + 1);
        ResendAppended(PollDue(was, now, out.Length, i), out[count - 1]);
      }
      if lost {
        ssthresh := Max(cwnd / 2, CWND_FLOOR);
        cwnd := CWND_FLOOR;
      }
    }
  }

  lemma ResendAppended(due: seq<Due>, d: Due)
    ensures AnyResend(due + [d]) <==> AnyResend(due) || d.Resend?
  {
    if d.Resend? { assert (due + [d])[|due|].Resend?; }
    if AnyResend(due) {
      var i :| 0 <= i < |due| && due[i].Resend?;
      assert (due + [d])[i].Resend?;
    }
  }
}
