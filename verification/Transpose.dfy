/** The byte-transpose filter, which groups the bytes of all elements by position. */
module Transpose {
  import opened Bits
  import opened Outcomes
  import opened Strides
  import opened Wire

  /** The bytes that fill whole elements. */
  function Body(len: nat, size: nat): (body: nat)
    requires size > 0
    ensures body <= len && body == Offset(len / size, size) == Offset(size, len / size)
  {
    OffsetIsProduct(len / size, size);
    SameArea(len / size, size);
    len / size * size
  }

  /** Element bytes grouped by position; a trailing part of an element stays as it is. */
  function Shuffled(input: seq<byte>, size: nat): (r: seq<byte>)
    requires size > 0
    ensures |r| == |input|
  {
    var body := Body(|input|, size);
    Transposed(input[..body], |input| / size, size) + input[body..]
  }

  function Unshuffled(input: seq<byte>, size: nat): (r: seq<byte>)
    requires size > 0
    ensures |r| == |input|
  {
    var body := Body(|input|, size);
    Transposed(input[..body], size, |input| / size) + input[body..]
  }

  lemma Halves(a: seq<byte>, b: seq<byte>)
    ensures (a + b)[..|a|] == a && (a + b)[|a|..] == b
  {
  }

  /** The filter loses nothing, in either order and for every length and element size. */
  lemma ShuffleRoundTrip(input: seq<byte>, size: nat)
    requires size > 0
    ensures Unshuffled(Shuffled(input, size), size) == input
    ensures Shuffled(Unshuffled(input, size), size) == input
  {
    var body := Body(|input|, size);
    var elements := |input| / size;
    TransposeTwice(input[..body], elements, size);
    TransposeTwice(input[..body], size, elements);
    Halves(Transposed(input[..body], elements, size), input[body..]);
    Halves(Transposed(input[..body], size, elements), input[body..]);
  }

  /** The byte the running index reads or writes next. */
  lemma NextByte(grid: seq<byte>, rows: nat, cols: nat, row: nat, col: nat)
    requires |grid| == Offset(rows, cols) && row < rows && col < cols
    ensures row * cols + col == Cell(row, col, cols) < |grid|
    ensures Cell(col, row, rows) < |grid|
    ensures Transposed(grid, rows, cols)[Cell(col, row, rows)] == grid[row * cols + col]
  {
    OffsetIsProduct(row, cols);
    TransposedAt(grid, rows, cols, row, col);
  }

  method Encode(input: seq<byte>, size: nat, out: array<byte>) returns (r: Result<nat>)
    modifies out
    ensures r == if size == 0 then Err(BadHeader)
                 else if out.Length < |input| then Err(BufferTooSmall)
                 else Ok(|input|)
    ensures r.Err? ==> out[..] == old(out[..])
    ensures r.Ok? ==> out[..] == Shuffled(input, size) + old(out[|input|..])
  {
    if size == 0 { return Err(BadHeader); }
    if out.Length < |input| { return Err(BufferTooSmall); }
    var elements := |input| / size;
    var body := Body(|input|, size);
    ghost var was := out[..];
    ghost var target := Transposed(input[..body], elements, size);
    var written := 0;
    for b := 0 to size
      invariant written == Offset(b, elements) <= body
      invariant forall i :: 0 <= i < written ==> out[i] == target[i]
      invariant forall i :: written <= i < out.Length ==> out[i] == was[i]
    {
      SlotFits(b, size, elements);
      for e := 0 to elements
        invariant written == Cell(b, e, elements) <= body
        invariant forall i :: 0 <= i < written ==> out[i] == target[i]
        invariant forall i :: written <= i < out.Length ==> out[i] == was[i]
      {
        NextByte(input[..body], elements, size, e, b);
        out[written] := input[e * size + b];
        written := written + 1;
      }
    }
    assert out[..written] == target;
    assert out[|input|..] == was[|input|..];
    CopyInto(out, written, input[body..]);
    return Ok(|input|);
  }

  /** What has been put back once `read` bytes were read: every byte whose source lies before. */
  ghost predicate PutBack(out: seq<byte>, target: seq<byte>, elements: nat, size: nat, read: nat)
    requires size > 0 && |target| == Offset(elements, size) <= |out|
  {
    forall k :: 0 <= k < |target| && Mirror(k, elements, size) < read ==> out[k] == target[k]
  }

  lemma PutOneMore(out: seq<byte>, target: seq<byte>, elements: nat, size: nat, e: nat, b: nat)
    requires size > 0 && |target| == Offset(elements, size) <= |out| && e < elements && b < size
    requires PutBack(out, target, elements, size, Cell(b, e, elements))
    ensures Cell(e, b, size) < |target|
    ensures PutBack(out[Cell(e, b, size) := target[Cell(e, b, size)]], target, elements, size, Cell(b, e, elements) + 1)
  {
    MirrorOfCell(e, b, elements, size);
    var at := Cell(e, b, size);
    forall k | 0 <= k < |target| && Mirror(k, elements, size) == Mirror(at, elements, size) ensures k == at {
      MirrorTwice(k, elements, size);
      MirrorTwice(at, elements, size);
    }
  }

  lemma AllPutBack(out: seq<byte>, target: seq<byte>, elements: nat, size: nat)
    requires size > 0 && |target| == Offset(elements, size) <= |out|
    requires PutBack(out, target, elements, size, Offset(size, elements))
    ensures out[..|target|] == target
  {
    forall k | 0 <= k < |target| ensures out[k] == target[k] {
      assert Mirror(k, elements, size) < Offset(size, elements);
    }
  }

  method Decode(input: seq<byte>, size: nat, out: array<byte>) returns (r: Result<nat>)
    modifies out
    ensures r == if size == 0 then Err(BadHeader)
                 else if out.Length < |input| then Err(BufferTooSmall)
                 else Ok(|input|)
    ensures r.Err? ==> out[..] == old(out[..])
    ensures r.Ok? ==> out[..] == Unshuffled(input, size) + old(out[|input|..])
  {
    if size == 0 { return Err(BadHeader); }
    if out.Length < |input| { return Err(BufferTooSmall); }
    var elements := |input| / size;
    var body := Body(|input|, size);
    ghost var was := out[..];
    ghost var target := Transposed(input[..body], size, elements);
    var read := 0;
    for b := 0 to size
      invariant read == Offset(b, elements) <= body
      invariant PutBack(out[..], target, elements, size, read)
      invariant out[body..] == was[body..]
    {
      SlotFits(b, size, elements);
      for e := 0 to elements
        invariant read == Cell(b, e, elements) <= body
        invariant PutBack(out[..], target, elements, size, read)
        invariant out[body..] == was[body..]
      {
        PutOneMore(out[..], target, elements, size, e, b);
        TransposedAt(input[..body], size, elements, b, e);
        OffsetIsProduct(e, size);
        ghost var before := out[..];
        out[e * size + b] := input[read];
        assert out[..] == before[e * size + b := input[read]];
        read := read + 1;
      }
    }
    AllPutBack(out[..], target, elements, size);
    ghost var done := out[..];
    CopyInto(out, body, input[body..]);
    assert done[|input|..] == was[|input|..];
    return Ok(|input|);
  }
}
