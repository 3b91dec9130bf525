/** Path MTU discovery: which frame sizes to probe, when, and what to conclude
    (in the manner of sections 5.1 and 5.2 of RFC 8899). Times are milliseconds
    supplied by the caller, and the random tokens of a search are a parameter. */
module Pmtu {
  import opened Bits
  import opened Outcomes

  const BASE: nat := 1200
  const LADDER: seq<nat> := [1280, 1400, 1452, 1472]
  const PROBE_TRIES: nat := 3
  const MIN_PROBE_INTERVAL: nat := 250
  const RESEARCH_INTERVAL: nat := 600_000
  const AFTER_FALLBACK: nat := 60_000

  type Token = nat

  datatype Probe = Probe(size: nat, token: Token, tries: nat, last: nat)

  datatype Ask = Ask(size: nat, token: Token)

  datatype State = State(current: nat, cap: nat, probes: seq<Probe>, validating: bool, nextSearch: Option<nat>)

  function ResetStep(s: State, now: nat): State {
    var current := Min(BASE, s.cap);
    State(current, s.cap, [], false, if s.cap > current then Some(now) else None)
  }

  function NewState(cap: nat, now: nat): State {
    ResetStep(State(BASE, cap, [], false, None), now)
  }

  /** Inserts into an ascending list, unless already there. */
  function Insert(sizes: seq<nat>, x: nat): seq<nat> {
    if sizes == [] || x < sizes[0] then [x] + sizes
    else if x == sizes[0] then sizes
    else [sizes[0]] + Insert(sizes[1..], x)
  }

  function Sorted(sizes: seq<nat>): seq<nat> {
    if sizes == [] then [] else Insert(Sorted(sizes[1..]), sizes[0])
  }

  function Within(sizes: seq<nat>, floor: int, cap: nat): seq<nat> {
    if sizes == [] then []
    else if floor < sizes[0] <= cap then [sizes[0]] + Within(sizes[1..], floor, cap)
    else Within(sizes[1..], floor, cap)
  }

  /** The sizes a search starting from `current` tries, in ascending order. */
  function Sizes(current: nat, cap: nat): seq<nat> {
    var validating := current > BASE;
    var floor := if validating then current - 1 else current;
    Sorted(Within(LADDER + [cap] + if validating then [current] else [], floor, cap))
  }

  function Fresh(sizes: seq<nat>, tokens: nat -> Token, now: nat): (r: seq<Probe>)
    ensures |r| == |sizes|
    ensures forall i :: 0 <= i < |r| ==> r[i] == Probe(sizes[i], tokens(sizes[i]), 0, now)
  {
    seq(|sizes|, i requires 0 <= i < |sizes| => Probe(sizes[i], tokens(sizes[i]), 0, now))
  }

  function Interval(retry: nat): nat { Max(retry, MIN_PROBE_INTERVAL) }

  /** What a pass does with one probe: leave it waiting, give it up, or send it. */
  predicate Waits(p: Probe, now: nat, retry: nat) {
    p.tries > 0 && now < p.last + Interval(retry)
  }

  predicate GivenUp(p: Probe, now: nat, retry: nat) {
    !Waits(p, now, retry) && p.tries >= PROBE_TRIES
  }

  function Passed(p: Probe, now: nat, retry: nat): Probe {
    if Waits(p, now, retry) then p else p.(tries := p.tries + 1, last := now)
  }

  function Retained(probes: seq<Probe>, now: nat, retry: nat): seq<Probe> {
    if probes == [] then []
    else
      var rest := Retained(probes[..|probes| - 1], now, retry);
      var p := probes[|probes| - 1];
      if GivenUp(p, now, retry) then rest else rest + [Passed(p, now, retry)]
  }

  function Asked(probes: seq<Probe>, now: nat, retry: nat): seq<Ask> {
    if probes == [] then []
    else
      var rest := Asked(probes[..|probes| - 1], now, retry);
      var p := probes[|probes| - 1];
      if Waits(p, now, retry) || GivenUp(p, now, retry) then rest else rest + [Ask(p.size, p.token)]
  }

  predicate SearchDue(s: State, now: nat) {
    s.probes == [] && s.nextSearch.Some? && now >= s.nextSearch.value
  }

  /** Begins a search if one is due. */
  function Begun(s: State, now: nat, tokens: nat -> Token): State {
    if SearchDue(s, now)
    then s.(nextSearch := None, validating := s.current > BASE, probes := Fresh(Sizes(s.current, s.cap), tokens, now))
    else s
  }

  /** The search is over, whatever it found. */
  function Finished(s: State, now: nat): State {
    s.(current := if s.validating then Min(BASE, s.cap) else s.current,
       validating := false,
       nextSearch := if s.cap > BASE
                     then Some(now + if s.validating then AFTER_FALLBACK else RESEARCH_INTERVAL)
                     else None)
  }

  function DueStep(s: State, now: nat, retry: nat, tokens: nat -> Token): (State, seq<Ask>) {
    var b := Begun(s, now, tokens);
    var r := b.(probes := Retained(b.probes, now, retry));
    (if r.probes == [] && r.nextSearch.None? then Finished(r, now) else r, Asked(b.probes, now, retry))
  }

  function Find(probes: seq<Probe>, token: Token): (k: nat)
    ensures k <= |probes|
    ensures k < |probes| ==> probes[k].token == token
    ensures forall i :: 0 <= i < k ==> probes[i].token != token
  {
    if probes == [] || probes[0].token == token then 0
    else
      var k := Find(probes[1..], token);
      assert forall i :: 0 < i < k + 1 ==> probes[i] == probes[1..][i - 1];
      k + 1
  }

  function Larger(probes: seq<Probe>, size: nat): seq<Probe> {
    if probes == [] then []
    else
      var rest := Larger(probes[..|probes| - 1], size);
      if probes[|probes| - 1].size > size then rest + [probes[|probes| - 1]] else rest
  }

  /** An answer to a probe; true when the limit is now another. */
  function AnsweredStep(s: State, token: Token, now: nat): (State, bool) {
    var k := Find(s.probes, token);
    if k == |s.probes| then (s, false)
    else
      var size := s.probes[k].size;
      var raised := if size >= s.current then s.(current := size, validating := false) else s;
      var left := raised.(probes := Larger(s.probes, size));
      var t := if left.probes == [] then Finished(left, now) else left;
      (t, t.current != s.current)
  }

  function SuspectStep(s: State, now: nat): State {
    if s.current > BASE && s.probes == [] then s.(nextSearch := Some(now)) else s
  }

  class Discovery {
    var current: nat
    const cap: nat
    var probes: seq<Probe>
    var validating: bool
    var nextSearch: Option<nat>

    function View(): State
      reads this
    {
      State(current, cap, probes, validating, nextSearch)
    }

    constructor (cap: nat, now: nat)
      ensures View() == NewState(cap, now)
    {
      this.cap := cap;
      current := Min(BASE, cap);
      probes := [];
      validating := false;
      nextSearch := if cap > Min(BASE, cap) then Some(now) else None;
    }

    method Reset(now: nat)
      modifies this
      ensures View() == ResetStep(old(View()), now)
    {
      current := Min(BASE, cap);
      probes := [];
      validating := false;
      nextSearch := if cap > current then Some(now) else None;
    }

    method Due(now: nat, retry: nat, tokens: nat -> Token) returns (asks: seq<Ask>)
      modifies this
      ensures (View(), asks) == DueStep(old(View()), now, retry, tokens)
    {
      if probes == [] && nextSearch.Some? && now >= nextSearch.value {
        nextSearch := None;
        validating := current > BASE;
        probes := Fresh(Sizes(current, cap), tokens, now);
      }
      asks := [];
      var kept := [];
      for i := 0 to |probes|
        invariant kept == Retained(probes[..i], now, retry)
        invariant asks == Asked(probes[..i], now, retry)
      {
        var p := probes[i];
        assert probes[..i + 1][..i] == probes[..i];
        if p.tries > 0 && now < p.last + Interval(retry) {
          kept := kept + [p];
        } else if p.tries < PROBE_TRIES {
          kept := kept + [p.(tries := p.tries + 1, last := now)];
          asks := asks + [Ask(p.size, p.token)];
        }
      }
      assert probes[..|probes|] == probes;
      probes := kept;
      if probes == [] && nextSearch.None? { Finish(now); }
    }

    method Answered(token: Token, now: nat) returns (changed: bool)
      modifies this
      ensures (View(), changed) == AnsweredStep(old(View()), token, now)
    {
      var k := 0;
      while k < |probes| && probes[k].token != token
        invariant 0 <= k <= |probes|
        invariant forall i :: 0 <= i < k ==> probes[i].token != token
      {
        k := k + 1;
      }
      assert k == Find(probes, token);
      if k == |probes| { return false; }
      var size := probes[k].size;
      var before := current;
      if size >= current {
        current := size;
        validating := false;
      }
      var kept := [];
      for i := 0 to |probes|
        invariant kept == Larger(probes[..i], size)
      {
        assert probes[..i + 1][..i] == probes[..i];
        if probes[i].size > size { kept := kept + [probes[i]]; }
      }
      assert probes[..|probes|] == probes;
      probes := kept;
      if probes == [] { Finish(now); }
      return current != before;
    }

    method Suspect(now: nat)
      modifies this
      ensures View() == SuspectStep(old(View()), now)
    {
      if current > BASE && probes == [] { nextSearch := Some(now); }
    }

    method Finish(now: nat)
      modifies this
      ensures View() == Finished(old(View()), now)
    {
      var fellBack := validating;
      if fellBack { current := Min(BASE, cap); }
      validating := false;
      nextSearch := if cap > BASE then Some(now + if fellBack then AFTER_FALLBACK else RESEARCH_INTERVAL) else None;
    }
  }
}
