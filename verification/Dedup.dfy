/** Acknowledgements and the receiver's duplicate window.

    Identifiers on the wire are 32-bit and wrap. The lemmas here relate the wire
    arithmetic to the unbounded identifiers a session actually issues: the wire
    form of identifier `g` is `g % 2^32`. */
module Dedup {
  import opened Bits

  const ACK_WINDOW: nat := 64
  const HALF: nat := 0x8000_0000

  /** `highest` was received; bit `i` says whether the one `i + 1` below it was. */
  datatype Ack = Ack(highest: u32, bitmap: u64) {
    predicate Covers(id: u32) {
      if id == highest then true
      else
        var distance := WrapSub(highest, id);
        if distance > ACK_WINDOW then false
        else Bit(bitmap, distance - 1)
    }
  }

  /** Whether `id` is ahead of `than`, by less than half the number space. */
  predicate IsNewer(id: u32, than: u32) {
    id != than && WrapSub(id, than) < HALF
  }

  datatype Window = Window(highest: u32, bitmap: u64, started: bool) {
    function ToAck(): Ack { Ack(highest, bitmap) }
  }

  const EMPTY: Window := Window(0, 0, false)

  /** The bitmap after the highest identifier moves up by `shift`. */
  function Slide(bitmap: u64, shift: nat): u64
    requires shift > 0
  {
    if shift > ACK_WINDOW then 0
    else if shift == ACK_WINDOW then SetBit64(0, ACK_WINDOW - 1)
    else SetBit64(Shl64(bitmap, shift), shift - 1)
  }

  /** What `accept` makes of one identifier: the window after it, and whether the
      message is new. */
  function AcceptStep(w: Window, id: u32): (Window, bool) {
    if !w.started then (Window(id, w.bitmap, true), true)
    else if IsNewer(id, w.highest) then
      (Window(id, Slide(w.bitmap, WrapSub(id, w.highest)), true), true)
    else if id == w.highest then (w, false)
    else
      var distance := WrapSub(w.highest, id);
      if distance > ACK_WINDOW || Bit(w.bitmap, distance - 1) then (w, false)
      else (w.(bitmap := SetBit64(w.bitmap, distance - 1)), true)
  }

  /** The receiver's window, updated in place. */
  class DedupWindow {
    var highest: u32
    var bitmap: u64
    var started: bool

    function State(): Window
      reads this
    {
      Window(highest, bitmap, started)
    }

    constructor ()
      ensures State() == EMPTY
    {
      highest, bitmap, started := 0, 0, false;
    }

    method Accept(id: u32) returns (isNew: bool)
      modifies this
      ensures (State(), isNew) == AcceptStep(old(State()), id)
    {
      if !started {
        started := true;
        highest := id;
        return true;
      }
      if IsNewer(id, highest) {
        var shift := WrapSub(id, highest);
        if shift > ACK_WINDOW {
          bitmap := 0;
        } else if shift == ACK_WINDOW {
          bitmap := SetBit64(0, ACK_WINDOW - 1);
        } else {
          bitmap := SetBit64(Shl64(bitmap, shift), shift - 1);
        }
        highest := id;
        return true;
      }
      if id == highest {
        return false;
      }
      var distance := WrapSub(highest, id);
      if distance > ACK_WINDOW {
        return false;
      }
      if Bit(bitmap, distance - 1) {
        return false;
      }
      bitmap := SetBit64(bitmap, distance - 1);
      return true;
    }
  }

  /** The window `w` records exactly the identifiers `seen`, the greatest of which
      is `high`, as far as its 64 bits reach. */
  ghost predicate Tracks(w: Window, seen: set<nat>, high: nat) {
    && (w.started <==> seen != {})
    && (!w.started ==> w == EMPTY)
    && (w.started ==>
          && high in seen
          && (forall g <- seen :: g <= high)
          && w.highest == high % U32
          && (forall i: nat | i < ACK_WINDOW :: Bit(w.bitmap, i) <==> Below(seen, high, i)))
  }

  /** Bit `i` of a window headed by `high` stands for `high - 1 - i`. */
  predicate Below(seen: set<nat>, high: nat, i: nat) {
    i < high && high - 1 - i in seen
  }

  lemma SlideBits(bitmap: u64, shift: nat, i: nat)
    requires shift > 0 && i < ACK_WINDOW
    ensures Bit(Slide(bitmap, shift), i) <==>
            i == shift - 1 || (i >= shift && Bit(bitmap, i - shift))
  {
    ZeroBit(i);
    if shift < ACK_WINDOW { ShlBit(bitmap, shift, i); }
  }

  lemma SlideTracks(w: Window, seen: set<nat>, high: nat, g: nat)
    requires Tracks(w, seen, high) && w.started && g > high
    ensures Tracks(Window(g % U32, Slide(w.bitmap, g - high), true), seen + {g}, g)
  {
    var w' := Window(g % U32, Slide(w.bitmap, g - high), true);
    var shift := g - high;
    forall i: nat | i < ACK_WINDOW
      ensures Bit(w'.bitmap, i) <==> Below(seen + {g}, g, i)
    {
      SlideBits(w.bitmap, shift, i);
      if i >= shift { assert Bit(w.bitmap, i - shift) <==> Below(seen, high, i - shift); }
    }
  }

  /** `accept` is exact while the two sides are less than half the identifier
      space apart: a message is new when it was never seen and is at most 64
      behind, and the window goes on recording exactly what was seen. */
  lemma AcceptExact(w: Window, seen: set<nat>, high: nat, g: nat)
    requires Tracks(w, seen, high)
    requires seen != {} ==> g < high + 0x8000_0000 && high <= g + 0x8000_0000
    ensures AcceptStep(w, g % U32).1 <==> seen == {} || (g !in seen && high <= g + 64)
    ensures Tracks(AcceptStep(w, g % U32).0,
                   if AcceptStep(w, g % U32).1 then seen + {g} else seen,
                   if seen == {} then g else Max(high, g))
  {
    var w' := AcceptStep(w, g % U32).0;
    if seen == {} {
      forall i: nat | i < ACK_WINDOW ensures !Bit(w'.bitmap, i) { ZeroBit(i); }
    } else {
      WrapSubOf(g, high);
      WrapSubOf(high, g);
      if g > high {
        SlideTracks(w, seen, high, g);
      } else if g < high && high <= g + ACK_WINDOW {
        assert Bit(w.bitmap, high - g - 1) <==> Below(seen, high, high - g - 1);
      }
    }
  }

  /** An acknowledgement is exact about every identifier less than 2^32 - 64 ahead
      of it: it covers what was seen no more than 64 below its highest. */
  lemma AckExact(w: Window, seen: set<nat>, high: nat, g: nat)
    requires Tracks(w, seen, high) && w.started
    requires g + 64 < high + U32 && high < g + U32
    ensures w.ToAck().Covers(g % U32) <==> g in seen && high <= g + 64
  {
    WrapSubOf(high, g);
  }

  /** That bound is the exact one: an acknowledgement that has been overtaken by
      2^32 - 64 identifiers covers one that was never received as soon as it
      reports the far edge of its window. */
  lemma StaleAckLies(w: Window, seen: set<nat>, high: nat, g: nat)
    requires Tracks(w, seen, high) && w.started
    requires g + 64 == high + U32 && high >= 64
    ensures g !in seen
    ensures w.ToAck().Covers(g % U32) <==> high - 64 in seen
  {
    WrapOnce(high - 64);
    AckExact(w, seen, high, high - 64);
  }
}
