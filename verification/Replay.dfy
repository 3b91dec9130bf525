/** The sliding replay window over frame sequence numbers. */
module Replay {
  import opened Bits
  import opened Outcomes

  const REPLAY_WINDOW: nat := 64

  datatype Window = Window(highest: u64, bitmap: u64, started: bool)

  const EMPTY: Window := Window(0, 0, false)

  function Check(w: Window, sequence: u64): Result<()> {
    if !w.started || sequence > w.highest then Ok(())
    else
      var diff := w.highest - sequence;
      if diff >= REPLAY_WINDOW || Bit(w.bitmap, diff) then Err(Error.Replay)
      else Ok(())
  }

  function CommitStep(w: Window, sequence: u64): Window {
    if !w.started then Window(sequence, 1, true)
    else if sequence > w.highest then
      var shift := sequence - w.highest;
      Window(sequence, if shift >= REPLAY_WINDOW then 1 else SetBit64(Shl64(w.bitmap, shift), 0), true)
    else
      var diff := w.highest - sequence;
      if diff < REPLAY_WINDOW then w.(bitmap := SetBit64(w.bitmap, diff)) else w
  }

  class ReplayWindow {
    var highest: u64
    var bitmap: u64
    var started: bool

    function State(): Window
      reads this
    {
      Window(highest, bitmap, started)
    }

    constructor ()
      ensures State() == EMPTY
    {
      highest, bitmap, started := 0, 0, false;
    }

    method Commit(sequence: u64)
      modifies this
      ensures State() == CommitStep(old(State()), sequence)
    {
      if !started {
        started := true;
        highest := sequence;
        bitmap := 1;
        return;
      }
      if sequence > highest {
        var shift := sequence - highest;
        bitmap := if shift >= REPLAY_WINDOW then 1 else SetBit64(Shl64(bitmap, shift), 0);
        highest := sequence;
      } else {
        var diff := highest - sequence;
        if diff < REPLAY_WINDOW {
          bitmap := SetBit64(bitmap, diff);
        }
      }
    }
  }

  /** Bit `d` of a window headed by `high` stands for `high - d`. */
  predicate At(accepted: set<nat>, high: nat, d: nat) {
    d <= high && high - d in accepted
  }

  /** The window records exactly the accepted sequence numbers, as far back as its
      64 bits reach. */
  ghost predicate Tracks(w: Window, accepted: set<nat>) {
    && (w.started <==> accepted != {})
    && (!w.started ==> w == EMPTY)
    && (w.started ==>
          && w.highest in accepted
          && (forall a <- accepted :: a <= w.highest)
          && (forall d: nat | d < REPLAY_WINDOW :: Bit(w.bitmap, d) <==> At(accepted, w.highest, d)))
  }

  /** The check, said about the set of accepted numbers alone. */
  predicate Acceptable(accepted: set<nat>, sequence: nat) {
    && sequence !in accepted
    && (forall a <- accepted :: a < sequence + 64)
  }

  /** The bitmap exactly refines the set: a number passes when it was not accepted
      before and is less than 64 below the highest. */
  lemma CheckExact(w: Window, accepted: set<nat>, sequence: u64)
    requires Tracks(w, accepted)
    ensures Check(w, sequence).Ok? <==> Acceptable(accepted, sequence)
  {
    if w.started && sequence <= w.highest && w.highest - sequence < REPLAY_WINDOW {
      assert Bit(w.bitmap, w.highest - sequence) <==> At(accepted, w.highest, w.highest - sequence);
    }
  }

  lemma OneBits(d: nat)
    ensures Bit(1, d) <==> d == 0
  {
    if d > 0 { ZeroBit(d - 1); }
  }

  lemma CommitTracks(w: Window, accepted: set<nat>, sequence: u64)
    requires Tracks(w, accepted)
    ensures Tracks(CommitStep(w, sequence), accepted + {sequence})
  {
    var w' := CommitStep(w, sequence);
    var accepted' := accepted + {sequence};
    forall d: nat | d < REPLAY_WINDOW
      ensures Bit(w'.bitmap, d) <==> At(accepted', w'.highest, d)
    {
      OneBits(d);
      if w.started && sequence > w.highest {
        var shift := sequence - w.highest;
        ShlBit(w.bitmap, shift, d);
        if d >= shift { assert Bit(w.bitmap, d - shift) <==> At(accepted, w.highest, d - shift); }
      } else if w.started {
        assert Bit(w.bitmap, d) <==> At(accepted, w.highest, d);
      }
    }
  }
}
