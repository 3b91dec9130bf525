/** Putting fragmented messages back together, in bounded memory. */
module Reassembly {
  import opened Bits
  import opened Outcomes
  import opened Wire
  import opened Frames
  import opened Strides

  const MAX_REASSEMBLIES: nat := 4

  /** A message partly here: a body holding every fragment but the
      last at `index * stride`, and a tail. */
  datatype Partial = Partial(
    message: u32, count: u16, stride: Option<nat>,
    body: seq<byte>, tail: seq<byte>, have: seq<bool>, received: nat)
  {
    function Held(): nat { |body| + |tail| }

    /** The bytes held for fragment `i`. */
    function Piece(i: nat): seq<byte> {
      if i + 1 >= count then tail
      else if stride.Some? && Offset(i, stride.value) + stride.value <= |body|
      then body[Offset(i, stride.value)..Offset(i, stride.value) + stride.value]
      else []
    }
  }

  function NewPartial(message: u32, count: u16): Partial {
    Partial(message, count, None, [], [], seq(count, _ => false), 0)
  }

  function Splice(s: seq<byte>, at: nat, data: seq<byte>): (r: seq<byte>)
    requires at + |data| <= |s|
    ensures |r| == |s|
  {
    s[..at] + data + s[at + |data|..]
  }

  function Resized(s: seq<byte>, n: nat): (r: seq<byte>)
    ensures |r| == if |s| < n then n else |s|
    ensures s <= r
  {
    if |s| < n then s + Zeros(n - |s|) else s
  }

  /** Any fragment before the last, put in its place. */
  function Store(p: Partial, index: nat, data: seq<byte>): Result<Partial>
    requires index + 1 < p.count
  {
    var stride := if p.stride.Some? then p.stride.value else |data|;
    if |data| != stride then Err(BadHeader)
    else
      var end := Offset(p.count - 1, stride);
      if end > MAX_MESSAGE_LEN then Err(PayloadTooLarge)
      else
        SlotFits(index, p.count - 1, stride);
        Ok(p.(stride := Some(stride), body := Splice(Resized(p.body, end), Offset(index, stride), data)))
  }

  /** Records one fragment; the whole message comes back once every piece is in. */
  function InsertStep(p: Partial, f: Fragment, data: seq<byte>): (Partial, Result<Option<seq<byte>>>)
    requires f.count == p.count && f.index < f.count && |p.have| == p.count
  {
    if p.have[f.index] then (p, Ok(None))
    else
      var stored := if f.IsLast() then Ok(p.(tail := data)) else Store(p, f.index, data);
      match stored
      case Err(e) => (p, Err(e))
      case Ok(p1) =>
        var p2 := p1.(have := p.have[f.index := true], received := p.received + 1);
        (p2, Ok(if p2.received != p2.count then None else Some(p2.body + p2.tail)))
  }

  /** The slot of the partial for `message`, or the number of slots. */
  function Position(ps: seq<Partial>, message: u32): (k: nat)
    ensures k <= |ps|
    ensures k < |ps| ==> ps[k].message == message
    ensures forall i :: 0 <= i < k ==> ps[i].message != message
  {
    if ps == [] || ps[0].message == message then 0
    else
      var k := Position(ps[1..], message);
      assert forall i :: 0 < i < k + 1 ==> ps[i] == ps[1..][i - 1];
      k + 1
  }

  function Without(ps: seq<Partial>, k: nat): (r: seq<Partial>)
    requires k < |ps|
    ensures |r| == |ps| - 1
    ensures forall i :: 0 <= i < |r| ==> r[i] == if i < k then ps[i] else ps[i + 1]
  {
    ps[..k] + ps[k + 1..]
  }

  /** The partials once there is one for this message, newest last. */
  function Opened(ps: seq<Partial>, f: Fragment): seq<Partial> {
    if Position(ps, f.message) < |ps| then ps
    else (if |ps| >= MAX_REASSEMBLIES then ps[1..] else ps) + [NewPartial(f.message, f.count)]
  }

  /** The table after one fragment, and the payload if that completed it. */
  function AcceptStep(ps: seq<Partial>, f: Fragment, data: seq<byte>): (seq<Partial>, Result<Option<seq<byte>>>)
    requires f.index < f.count
    requires forall i :: 0 <= i < |ps| ==> |ps[i].have| == ps[i].count
  {
    var k := Position(ps, f.message);
    if f.count > MAX_FRAGMENTS then (ps, Err(BadHeader))
    else if k < |ps| && ps[k].count != f.count then (Without(ps, k), Err(BadHeader))
    else
      var qs := Opened(ps, f);
      InsertAt(qs, if k < |ps| then k else |qs| - 1, f, data)
  }

  /** Inserts into the partial at `k`, which goes when it is finished, refused or too large. */
  function InsertAt(ps: seq<Partial>, k: nat, f: Fragment, data: seq<byte>): (seq<Partial>, Result<Option<seq<byte>>>)
    requires k < |ps| && ps[k].count == f.count && f.index < f.count && |ps[k].have| == ps[k].count
  {
    var (p, r) := InsertStep(ps[k], f, data);
    match r
    case Ok(Some(whole)) => (Without(ps, k), r)
    case Ok(None) => if p.Held() > MAX_MESSAGE_LEN then (Without(ps, k), Err(PayloadTooLarge)) else (ps[k := p], r)
    case Err(_) => (Without(ps, k), r)
  }

  // ---- What is held -------------------------------------------------------------

  function CountTrue(have: seq<bool>): nat {
    if have == [] then 0 else CountTrue(have[..|have| - 1]) + if have[|have| - 1] then 1 else 0
  }

  predicate Shape(p: Partial) {
    && 0 < p.count <= MAX_FRAGMENTS && |p.have| == p.count
    && p.received == CountTrue(p.have)
    && (match p.stride
        case None => p.body == [] && (forall i :: 0 <= i < p.count - 1 ==> !p.have[i])
        case Some(s) =>
          && |p.body| == Offset(p.count - 1, s) <= MAX_MESSAGE_LEN
          && (exists i :: 0 <= i < p.count - 1 && p.have[i]))
    && (!p.have[p.count - 1] ==> p.tail == [])
  }

  predicate PartialOk(p: Partial) {
    Shape(p) && p.received < p.count && p.Held() <= MAX_MESSAGE_LEN
  }

  /** The bounds every call keeps: at most four partials, of different messages, each
      begun, each within 1 MiB and with its count of fragments right. */
  predicate Valid(ps: seq<Partial>) {
    && |ps| <= 4
    && (forall i :: 0 <= i < |ps| ==> PartialOk(ps[i]) && ps[i].received > 0)
    && (forall i, j :: 0 <= i < j < |ps| ==> ps[i].message != ps[j].message)
  }

  /** The fragments a partial has kept. */
  function Pieces(p: Partial): (m: map<nat, seq<byte>>)
    requires Shape(p)
  {
    map i: nat | i < p.count && p.have[i] :: p.Piece(i)
  }

  function Lookup(ps: seq<Partial>, message: u32): Option<Partial> {
    var k := Position(ps, message);
    if k < |ps| then Some(ps[k]) else None
  }

  function Concat(pieces: map<nat, seq<byte>>, n: nat): seq<byte>
    requires forall i: nat | i < n :: i in pieces
  {
    if n == 0 then [] else Concat(pieces, n - 1) + pieces[n - 1]
  }

  predicate Full(pieces: map<nat, seq<byte>>, n: nat) {
    forall i: nat | i < n :: i in pieces
  }

  // ---- One insertion ------------------------------------------------------------

  lemma {:induction false} CountBound(have: seq<bool>)
    ensures CountTrue(have) <= |have|
    ensures CountTrue(have) == |have| <==> forall i :: 0 <= i < |have| ==> have[i]
  {
    if have != [] { CountBound(have[..|have| - 1]); }
  }

  lemma {:induction false} CountSet(have: seq<bool>, i: nat)
    requires i < |have| && !have[i]
    ensures CountTrue(have[i := true]) == CountTrue(have) + 1
  {
    var init := have[..|have| - 1];
    if i < |have| - 1 {
      CountSet(init, i);
      assert have[i := true][..|have| - 1] == init[i := true];
    } else {
      assert have[i := true][..|have| - 1] == init;
    }
  }

  lemma SpliceSlice(b: seq<byte>, x: nat, y: nat, data: seq<byte>)
    requires x + |data| <= |b| && y + |data| <= |b|
    requires y == x || y + |data| <= x || x + |data| <= y
    ensures Splice(b, x, data)[y..y + |data|] == if y == x then data else b[y..y + |data|]
  {
  }

  lemma TakeMore(b: seq<byte>, x: nat, n: nat)
    requires x + n <= |b|
    ensures b[..x] + b[x..x + n] == b[..x + n]
  {
  }

  lemma StoredBody(p: Partial, index: nat, data: seq<byte>) returns (base: seq<byte>)
    requires Shape(p) && index + 1 < p.count && Store(p, index, data).Ok?
    ensures |base| == Offset(p.count - 1, |data|) && Offset(index, |data|) + |data| <= |base|
    ensures p.stride.Some? ==> p.stride.value == |data| && base == p.body
    ensures Store(p, index, data).value == p.(stride := Some(|data|), body := Splice(base, Offset(index, |data|), data))
  {
    base := Resized(p.body, Offset(p.count - 1, |data|));
    SlotFits(index, p.count - 1, |data|);
  }

  /** Storing a fragment keeps every other one where it was. */
  lemma StoreKeeps(p: Partial, index: nat, data: seq<byte>, j: nat)
    requires Shape(p) && index + 1 < p.count && Store(p, index, data).Ok?
    requires j + 1 < p.count
    ensures var p1 := Store(p, index, data).value;
            && |p1.body| == Offset(p.count - 1, |data|)
            && p1.stride == Some(|data|)
            && (j == index ==> p1.Piece(j) == data)
            && (j != index && p.stride.Some? ==> p1.Piece(j) == p.Piece(j))
  {
    var base := StoredBody(p, index, data);
    OffsetsApart(index, j, p.count - 1, |data|);
    SpliceSlice(base, Offset(index, |data|), Offset(j, |data|), data);
  }

  lemma InsertShape(p: Partial, f: Fragment, data: seq<byte>)
    requires Shape(p) && f.Coherent() && f.count == p.count && !p.have[f.index]
    requires InsertStep(p, f, data).1.Ok?
    ensures var p' := InsertStep(p, f, data).0;
            Shape(p') && p'.message == p.message && p'.count == p.count && p'.received == p.received + 1
  {
    var p' := InsertStep(p, f, data).0;
    CountSet(p.have, f.index);
    if !f.IsLast() {
      StoreKeeps(p, f.index, data, f.index);
      assert p'.have[f.index];
    } else if p.stride.Some? {
      var i :| 0 <= i < p.count - 1 && p.have[i];
      assert p'.have[i];
    }
  }

  lemma InsertPiece(p: Partial, f: Fragment, data: seq<byte>, i: nat)
    requires Shape(p) && f.Coherent() && f.count == p.count && !p.have[f.index]
    requires InsertStep(p, f, data).1.Ok?
    requires i < p.count && (i == f.index || p.have[i])
    ensures InsertStep(p, f, data).0.Piece(i) == if i == f.index then data else p.Piece(i)
  {
    if i + 1 < p.count && !f.IsLast() { StoreKeeps(p, f.index, data, i); }
  }

  /** The fragments kept after an insertion. */
  lemma InsertPieces(p: Partial, f: Fragment, data: seq<byte>)
    requires Shape(p) && f.Coherent() && f.count == p.count && !p.have[f.index]
    requires InsertStep(p, f, data).1.Ok? && Shape(InsertStep(p, f, data).0)
    ensures Pieces(InsertStep(p, f, data).0) == Pieces(p)[f.index as nat := data]
  {
    var p' := InsertStep(p, f, data).0;
    assert p'.have == p.have[f.index := true] && p'.count == p.count;
    var a, b := Pieces(p'), Pieces(p)[f.index as nat := data];
    assert a.Keys == b.Keys;
    forall i | i in a ensures a[i] == b[i] { InsertPiece(p, f, data, i); }
  }

  lemma {:induction false} BodyIsPieces(p: Partial, n: nat)
    requires Shape(p) && p.stride.Some? && n <= p.count - 1
    requires forall i :: 0 <= i < p.count ==> p.have[i]
    ensures Offset(n, p.stride.value) <= |p.body| && Full(Pieces(p), n)
    ensures Concat(Pieces(p), n) == p.body[..Offset(n, p.stride.value)]
  {
    var s := p.stride.value;
    if n > 0 {
      BodyIsPieces(p, n - 1);
      SlotFits(n - 1, p.count - 1, s);
      var x := Offset(n - 1, s);
      assert Pieces(p)[n - 1] == p.body[x..x + s];
      TakeMore(p.body, x, s);
    }
  }

  /** A complete partial holds its fragments in order. */
  lemma Assembled(p: Partial)
    requires Shape(p) && p.received == p.count
    ensures Full(Pieces(p), p.count) && p.body + p.tail == Concat(Pieces(p), p.count)
  {
    CountBound(p.have);
    assert p.have[p.count - 1];
    assert Pieces(p)[p.count - 1] == p.tail;
    if p.stride.Some? {
      BodyIsPieces(p, p.count - 1);
      assert p.body[..|p.body|] == p.body;
    }
  }

  /** What inserting a fragment into a partial means: a duplicate changes nothing,
      and otherwise the fragment is kept or the message comes back as the
      concatenation of the first fragment kept for each index. */
  lemma InsertMeans(p: Partial, f: Fragment, data: seq<byte>)
    requires Shape(p) && p.received < p.count && f.Coherent() && f.count == p.count
    ensures var (p', r) := InsertStep(p, f, data);
            var pieces := Pieces(p)[f.index as nat := data];
            && (f.index in Pieces(p) <==> p.have[f.index])
            && (p.have[f.index] ==> p' == p && r == Ok(None))
            && (!p.have[f.index] && r.Ok? ==>
                  && Shape(p') && p'.message == p.message && p'.count == p.count
                  && p'.received == p.received + 1 <= p'.count
                  && Pieces(p') == pieces
                  && (r.value.Some? <==> Full(pieces, f.count))
                  && (r.value.Some? <==> p'.received == p'.count)
                  && (r.value.Some? ==> r.value.value == Concat(pieces, f.count)))
  {
    var (p', r) := InsertStep(p, f, data);
    if !p.have[f.index] && r.Ok? {
      InsertShape(p, f, data);
      InsertPieces(p, f, data);
      CountBound(p'.have);
      if p'.received == p'.count {
        Assembled(p');
      } else {
        var i :| 0 <= i < |p'.have| && !p'.have[i];
        assert i !in Pieces(p');
      }
    }
  }

  // ---- One call -----------------------------------------------------------------

  predicate Separate(ps: seq<Partial>) {
    forall i, j :: 0 <= i < j < |ps| ==> ps[i].message != ps[j].message
  }

  lemma LookupAt(ps: seq<Partial>, k: nat)
    requires Separate(ps) && k < |ps|
    ensures Position(ps, ps[k].message) == k && Lookup(ps, ps[k].message) == Some(ps[k])
  {
  }

  lemma LookupWithout(ps: seq<Partial>, k: nat, m: u32)
    requires Separate(ps) && k < |ps|
    ensures Separate(Without(ps, k))
    ensures Lookup(Without(ps, k), m) == if m == ps[k].message then None else Lookup(ps, m)
  {
    var qs := Without(ps, k);
    var i := Position(ps, m);
    if i < |ps| && i != k { LookupAt(qs, if i < k then i else i - 1); }
    var j := Position(qs, m);
    if j < |qs| { LookupAt(ps, if j < k then j else j + 1); }
  }

  lemma LookupUpdate(ps: seq<Partial>, k: nat, p: Partial, m: u32)
    requires Separate(ps) && k < |ps| && p.message == ps[k].message
    ensures Separate(ps[k := p])
    ensures Lookup(ps[k := p], m) == if m == p.message then Some(p) else Lookup(ps, m)
  {
    var qs := ps[k := p];
    LookupAt(qs, k);
    var i := Position(ps, m);
    if i < |ps| { LookupAt(qs, i); }
    var j := Position(qs, m);
    if j < |qs| { LookupAt(ps, j); }
  }

  lemma LookupAppend(ps: seq<Partial>, p: Partial, m: u32)
    requires Separate(ps) && Lookup(ps, p.message).None?
    ensures Separate(ps + [p])
    ensures Lookup(ps + [p], m) == if m == p.message then Some(p) else Lookup(ps, m)
  {
    var qs := ps + [p];
    LookupAt(qs, |ps|);
    var i := Position(ps, m);
    if i < |ps| { LookupAt(qs, i); }
    var j := Position(qs, m);
    if j < |ps| { LookupAt(ps, j); }
  }

  /** Opening a partial for a message evicts the oldest when four are held. */
  predicate Evicts(ps: seq<Partial>, f: Fragment, m: u32) {
    Lookup(ps, f.message).None? && |ps| >= 4 && ps[0].message == m
  }

  lemma LookupOpened(ps: seq<Partial>, f: Fragment, m: u32)
    requires Separate(ps)
    ensures Separate(Opened(ps, f))
    ensures Lookup(Opened(ps, f), m) ==
            if m == f.message && Lookup(ps, m).None? then Some(NewPartial(f.message, f.count))
            else if Evicts(ps, f, m) then None
            else Lookup(ps, m)
  {
    if Lookup(ps, f.message).None? {
      var qs := if |ps| >= MAX_REASSEMBLIES then Without(ps, 0) else ps;
      if |ps| >= MAX_REASSEMBLIES {
        LookupWithout(ps, 0, m);
        LookupWithout(ps, 0, f.message);
        assert ps[1..] == Without(ps, 0);
      }
      LookupAppend(qs, NewPartial(f.message, f.count), m);
    }
  }

  lemma {:induction false} NothingYet(n: nat)
    ensures CountTrue(seq(n, _ => false)) == 0
  {
    if n > 0 {
      NothingYet(n - 1);
      assert seq(n, _ => false)[..n - 1] == seq(n - 1, _ => false);
    }
  }

  lemma NewPartialShape(message: u32, count: u16)
    requires 0 < count <= MAX_FRAGMENTS
    ensures Shape(NewPartial(message, count)) && Pieces(NewPartial(message, count)) == map[]
  {
    NothingYet(count);
  }

  /** The partials after a fragment, message by message. Only the fragment's own
      message changes, apart from the one a new message may evict. */
  lemma AcceptLookup(ps: seq<Partial>, f: Fragment, data: seq<byte>, m: u32)
    requires Valid(ps) && f.Coherent()
    ensures var (qs, r) := AcceptStep(ps, f, data);
            Separate(qs) &&
            Lookup(qs, m) ==
            if m != f.message then
              if Evicts(ps, f, m) then None else Lookup(ps, m)
            else if r == Ok(None) then
              Some(InsertStep(Lookup(ps, m).GetOr(NewPartial(m, f.count)), f, data).0)
            else None
  {
    var k := Position(ps, f.message);
    if k < |ps| && ps[k].count != f.count {
      LookupWithout(ps, k, m);
    } else {
      var qs := Opened(ps, f);
      LookupOpened(ps, f, m);
      LookupOpened(ps, f, f.message);
      var k := if k < |ps| then k else |qs| - 1;
      var p := InsertStep(qs[k], f, data).0;
      assert p.message == qs[k].message == f.message;
      LookupUpdate(qs, k, p, m);
      LookupWithout(qs, k, m);
    }
  }

  /** The fragments held for a message, none when there is no partial for it. */
  function HeldFor(ps: seq<Partial>, message: u32): map<nat, seq<byte>>
    requires Valid(ps)
  {
    match Lookup(ps, message)
    case None => map[]
    case Some(p) => (assert PartialOk(p); Pieces(p))
  }

  /** The partial a fragment is inserted into, and what the insertion does to it. */
  lemma InsertedInto(ps: seq<Partial>, f: Fragment, data: seq<byte>)
    requires Valid(ps) && f.Coherent()
    requires Lookup(ps, f.message).Some? ==> Lookup(ps, f.message).value.count == f.count
    ensures var p := Lookup(ps, f.message).GetOr(NewPartial(f.message, f.count));
            var (p', r) := InsertStep(p, f, data);
            && Shape(p) && p.received < p.count && p.Held() <= MAX_MESSAGE_LEN && Pieces(p) == HeldFor(ps, f.message)
            && AcceptStep(ps, f, data).1 ==
               if r == Ok(None) && p'.Held() > MAX_MESSAGE_LEN then Err(PayloadTooLarge) else r
  {
    NewPartialShape(f.message, f.count);
    var k := Position(ps, f.message);
    if k < |ps| { assert PartialOk(ps[k]); }
  }

  lemma AcceptValid(ps: seq<Partial>, f: Fragment, data: seq<byte>)
    requires Valid(ps) && f.index < f.count
    ensures Valid(AcceptStep(ps, f, data).0)
  {
    if f.Coherent() {
      var (qs, r) := AcceptStep(ps, f, data);
      AcceptLookup(ps, f, data, f.message);
      forall i | 0 <= i < |qs|
        ensures PartialOk(qs[i]) && qs[i].received > 0
      {
        LookupAt(qs, i);
        AcceptLookup(ps, f, data, qs[i].message);
        if qs[i].message == f.message {
          InsertedInto(ps, f, data);
          var p := Lookup(ps, f.message).GetOr(NewPartial(f.message, f.count));
          InsertMeans(p, f, data);
          if p.have[f.index] { CountPositive(p.have, f.index); }
        }
      }
    }
  }

  lemma {:induction false} CountPositive(have: seq<bool>, i: nat)
    requires i < |have| && have[i]
    ensures CountTrue(have) > 0
  {
    if i < |have| - 1 { CountPositive(have[..|have| - 1], i); }
  }

  /** What a call returns, for any decoded fragment: a message comes back exactly
      when its last missing fragment arrives, and is the concatenation of the
      first fragment kept for each index; a refusal drops what was held. */
  lemma AcceptMeans(ps: seq<Partial>, f: Fragment, data: seq<byte>)
    requires Valid(ps) && f.Coherent()
    ensures var (qs, r) := AcceptStep(ps, f, data);
            var before := HeldFor(ps, f.message);
            var after := if f.index in before then before else before[f.index as nat := data];
            && Valid(qs)
            && (r.Err? || r.value.Some? ==> HeldFor(qs, f.message) == map[])
            && (r == Ok(None) ==> HeldFor(qs, f.message) == after && !Full(after, f.count))
            && (r.Ok? && r.value.Some? ==>
                  && f.index !in before && Full(after, f.count)
                  && r.value.value == Concat(after, f.count))
            && (forall m: u32 | m != f.message ::
                  HeldFor(qs, m) == if Evicts(ps, f, m) then map[] else HeldFor(ps, m))
  {
    var (qs, r) := AcceptStep(ps, f, data);
    AcceptValid(ps, f, data);
    AcceptLookup(ps, f, data, f.message);
    forall m: u32 | m != f.message
      ensures HeldFor(qs, m) == if Evicts(ps, f, m) then map[] else HeldFor(ps, m)
    {
      AcceptLookup(ps, f, data, m);
    }
    if r.Ok? {
      InsertedInto(ps, f, data);
      var p := Lookup(ps, f.message).GetOr(NewPartial(f.message, f.count));
      InsertMeans(p, f, data);
      if p.have[f.index] { StillMissing(p, f.count); }
    }
  }

  lemma StillMissing(p: Partial, n: nat)
    requires Shape(p) && p.received < p.count && n == p.count
    ensures !Full(Pieces(p), n)
  {
    CountBound(p.have);
    var i :| 0 <= i < |p.have| && !p.have[i];
    assert i !in Pieces(p);
  }

  // ---- The table, updated in place ------------------------------------------------

  class Reassembler {
    var partials: seq<Partial>

    constructor ()
      ensures partials == []
    {
      partials := [];
    }

    method Find(message: u32) returns (k: nat)
      ensures k == Position(partials, message)
    {
      k := 0;
      while k < |partials| && partials[k].message != message
        invariant 0 <= k <= |partials|
        invariant forall i :: 0 <= i < k ==> partials[i].message != message
      {
        k := k + 1;
      }
    }

    method Remove(k: nat)
      requires k < |partials|
      modifies this
      ensures partials == Without(old(partials), k)
    {
      partials := partials[..k] + partials[k + 1..];
    }

    method Accept(f: Fragment, data: seq<byte>) returns (r: Result<Option<seq<byte>>>)
      requires Valid(partials) && f.index < f.count
      modifies this
      ensures (partials, r) == AcceptStep(old(partials), f, data)
      ensures Valid(partials)
    {
      ghost var was := partials;
      if f.count > MAX_FRAGMENTS { return Err(BadHeader); }
      var k := Find(f.message);
      if k < |partials| && partials[k].count != f.count {
        Remove(k);
        r := Err(BadHeader);
      } else {
        if k == |partials| {
          if |partials| >= MAX_REASSEMBLIES { partials := partials[1..]; }
          partials := partials + [NewPartial(f.message, f.count)];
          k := |partials| - 1;
        }
        assert partials == Opened(was, f);
        r := FoldIn(k, f, data);
      }
      AcceptValid(was, f, data);
    }

    method FoldIn(k: nat, f: Fragment, data: seq<byte>) returns (r: Result<Option<seq<byte>>>)
      requires k < |partials| && partials[k].count == f.count
      requires f.index < f.count && |partials[k].have| == partials[k].count
      modifies this
      ensures (partials, r) == InsertAt(old(partials), k, f, data)
    {
      var p;
      p, r := Insert(partials[k], f, data);
      if r == Ok(None) && p.Held() <= MAX_MESSAGE_LEN {
        partials := partials[k := p];
      } else {
        if r == Ok(None) { r := Err(PayloadTooLarge); }
        Remove(k);
      }
    }

    /** Records one fragment in a partial. */
    static method Insert(was: Partial, f: Fragment, data: seq<byte>)
      returns (p: Partial, r: Result<Option<seq<byte>>>)
      requires f.count == was.count && f.index < f.count && |was.have| == was.count
      ensures r == InsertStep(was, f, data).1
      ensures r.Ok? ==> p == InsertStep(was, f, data).0
    {
      p := was;
      if p.have[f.index] { return p, Ok(None); }
      if f.IsLast() {
        p := p.(tail := data);
      } else {
        if p.stride.None? { p := p.(stride := Some(|data|)); }
        var stride := p.stride.value;
        if |data| != stride { return p, Err(BadHeader); }
        var end := Offset(p.count - 1, stride);
        if end > MAX_MESSAGE_LEN { return p, Err(PayloadTooLarge); }
        if |p.body| < end { p := p.(body := p.body + Zeros(end - |p.body|)); }
        SlotFits(f.index, p.count - 1, stride);
        p := p.(body := Splice(p.body, Offset(f.index, stride), data));
      }
      p := p.(have := p.have[f.index := true], received := p.received + 1);
      r := Ok(if p.received != p.count then None else Some(p.body + p.tail));
    }
  }
}
