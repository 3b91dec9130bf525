/** Per-channel delta coding of interleaved samples: the cells of a grid of sample times
    by channels, read channel by channel, differenced, zigzagged and written as varints. */
module Numeric {
  import opened Bits
  import opened Outcomes
  import opened Strides
  import opened Wire
  import opened Varint

  predicate Width(width: nat) {
    width == 2 || width == 4
  }

  function Signed16(n: u16): i32 {
    if n < 0x8000 then n else n - 0x1_0000
  }

  function Signed32(n: u32): i32 {
    if n < 0x8000_0000 then n else n - 0x1_0000_0000
  }

  function Pair(low: nat, high: nat): nat {
    low + 0x100 * high
  }

  /** One little-endian sample, sign-extended. */
  function ReadSample(b: seq<byte>): i32
    requires Width(|b|)
  {
    if |b| == 2 then Signed16(Pair(b[0], b[1]))
    else Signed32(Pair(b[0], b[1]) + 0x1_0000 * Pair(b[2], b[3]))
  }

  /** One little-endian sample, its high bits dropped when it is narrow. */
  function WriteSample(v: i32, width: nat): (r: seq<byte>)
    requires Width(width)
    ensures |r| == width
  {
    Le(if width == 2 then v % 0x1_0000 else v % 0x1_0000_0000, width)
  }

  predicate Fits(v: i32, width: nat) {
    width == 2 ==> -0x8000 <= v < 0x8000
  }

  lemma ReadIs(b: seq<byte>)
    requires Width(|b|)
    ensures |b| == 2 ==> FromLe(b) < 0x1_0000 && ReadSample(b) == Signed16(FromLe(b))
    ensures |b| == 4 ==> FromLe(b) < 0x1_0000_0000 && ReadSample(b) == Signed32(FromLe(b))
    ensures Le(FromLe(b), |b|) == b
  {
    FromLeRoundTrip(b);
    Pow256Values();
    if |b| == 4 {
      assert FromLe(b[1..][1..]) == Pair(b[2], b[3]) by {
        assert b[1..][1..] == [b[2], b[3]];
      }
    }
  }

  lemma SignRoundTrip(n: u16, m: u32, v: i32)
    ensures Signed16(n) % 0x1_0000 == n && Signed32(m) % 0x1_0000_0000 == m
    ensures Signed32(v % 0x1_0000_0000) == v
    ensures Signed16(v % 0x1_0000) == v <==> Fits(v, 2)
  {
  }

  lemma SampleRoundTrip(b: seq<byte>)
    requires Width(|b|)
    ensures WriteSample(ReadSample(b), |b|) == b
  {
    ReadIs(b);
    if |b| == 2 { SignRoundTrip(FromLe(b), 0, 0); } else { SignRoundTrip(0, FromLe(b), 0); }
  }

  lemma WriteThenRead(v: i32, width: nat)
    requires Width(width)
    ensures ReadSample(WriteSample(v, width)) == v <==> Fits(v, width)
  {
    SignRoundTrip(0, 0, v);
    Pow256Values();
    LeRoundTrip(if width == 2 then v % 0x1_0000 else v % 0x1_0000_0000, width);
    ReadIs(WriteSample(v, width));
  }

  /** How many frames of `channels` samples `len` bytes hold; a part of a frame is refused. */
  function FrameLayout(len: nat, channels: nat, width: nat): Result<nat>
    requires Width(width)
  {
    if channels == 0 then Err(BadHeader)
    else
      var stride := channels * width;
      if len % stride != 0 then Err(BadHeader) else Ok(len / stride)
  }

  lemma Triple(n: nat, channels: nat, width: nat)
    ensures n * (channels * width) == n * channels * width
  {
  }

  lemma LayoutMeans(len: nat, channels: nat, width: nat)
    requires Width(width) && FrameLayout(len, channels, width).Ok?
    ensures var n := FrameLayout(len, channels, width).value;
            Offset(n, channels) == Offset(channels, n) && len == Offset(Offset(n, channels), width)
  {
    var n := FrameLayout(len, channels, width).value;
    OffsetIsProduct(n, channels);
    OffsetIsProduct(Offset(n, channels), width);
    SameArea(n, channels);
    Triple(n, channels, width);
  }

  function Samples(input: seq<byte>, n: nat, width: nat): (r: seq<i32>)
    requires Width(width) && |input| == Offset(n, width)
    ensures |r| == n
  {
    seq(n, i requires 0 <= i < n => ReadSample(Piece(input, i, n, width)))
  }

  function Written(vs: seq<i32>, width: nat): (r: seq<seq<byte>>)
    requires Width(width)
    ensures |r| == |vs| && Uniform(r, width)
  {
    seq(|vs|, i requires 0 <= i < |vs| => WriteSample(vs[i], width))
  }

  function Bytes(vs: seq<i32>, width: nat): (r: seq<byte>)
    requires Width(width)
    ensures |r| == Offset(|vs|, width)
  {
    JoinedLength(Written(vs, width), width);
    Joined(Written(vs, width))
  }

  lemma BytesOfSamples(input: seq<byte>, n: nat, width: nat)
    requires Width(width) && |input| == Offset(n, width)
    ensures Bytes(Samples(input, n, width), width) == input
  {
    var ps := Pieces(input, n, width);
    forall i | 0 <= i < n ensures WriteSample(Samples(input, n, width)[i], width) == ps[i] {
      SampleRoundTrip(ps[i]);
    }
    assert Written(Samples(input, n, width), width) == ps;
    JoinedPieces(input, n, width);
  }

  ghost predicate AllFit(vs: seq<i32>, width: nat) {
    forall i :: 0 <= i < |vs| ==> Fits(vs[i], width)
  }

  /** Reading back what was written gives the values exactly when none was cut short. */
  lemma SamplesOfBytes(vs: seq<i32>, width: nat)
    requires Width(width)
    ensures Samples(Bytes(vs, width), |vs|, width) == vs <==> AllFit(vs, width)
  {
    var again := Samples(Bytes(vs, width), |vs|, width);
    forall i | 0 <= i < |vs| ensures again[i] == vs[i] <==> Fits(vs[i], width) {
      PieceOfJoined(Written(vs, width), width, i);
      WriteThenRead(vs[i], width);
    }
  }

  /** The value the next one is differenced against: the one before it in its channel,
      zero at the start of a channel of `n` samples. */
  function Before(vs: seq<i32>, n: nat): i32 {
    if vs == [] || n == 0 || Col(|vs|, n) == 0 then 0 else vs[|vs| - 1]
  }

  function Delta(v: i32, previous: i32): u32 {
    Zigzag(Wrap(v - previous))
  }

  function Undelta(u: u32, previous: i32): i32 {
    Wrap(previous + Unzigzag(u))
  }

  lemma DeltaRoundTrip(v: i32, previous: i32)
    ensures Undelta(Delta(v, previous), previous) == v
  {
    ZigzagRoundTrip(Wrap(v - previous));
    WrapRoundTrip(v, previous);
  }

  lemma UndeltaRoundTrip(u: u32, previous: i32)
    ensures Delta(Undelta(u, previous), previous) == u
  {
    UnzigzagRoundTrip(u);
    WrapRoundTrip(Unzigzag(u), previous);
  }

  /** The differences of a run of channels of `n` samples each. */
  function Deltas(vs: seq<i32>, n: nat): (r: seq<u32>)
    ensures |r| == |vs|
  {
    seq(|vs|, k requires 0 <= k < |vs| => Delta(vs[k], Before(vs[..k], n)))
  }

  function Undeltas(us: seq<u32>, n: nat): (r: seq<i32>)
    ensures |r| == |us|
  {
    if us == [] then []
    else
      var front := Undeltas(us[..|us| - 1], n);
      front + [Undelta(us[|us| - 1], Before(front, n))]
  }

  lemma DeltasNext(vs: seq<i32>, v: i32, n: nat)
    ensures Deltas(vs + [v], n) == Deltas(vs, n) + [Delta(v, Before(vs, n))]
  {
    forall k | 0 <= k <= |vs| ensures (vs + [v])[..k] == vs[..k] {}
    assert vs[..|vs|] == vs;
  }

  lemma UndeltasNext(us: seq<u32>, u: u32, n: nat)
    ensures Undeltas(us + [u], n) == Undeltas(us, n) + [Undelta(u, Before(Undeltas(us, n), n))]
  {
    assert (us + [u])[..|us|] == us;
  }

  lemma {:induction false} DeltasRoundTrip(vs: seq<i32>, n: nat)
    ensures Undeltas(Deltas(vs, n), n) == vs
  {
    if vs != [] {
      var front, v := vs[..|vs| - 1], vs[|vs| - 1];
      DeltasRoundTrip(front, n);
      assert vs == front + [v];
      DeltasNext(front, v, n);
      UndeltasNext(Deltas(front, n), Delta(v, Before(front, n)), n);
      DeltaRoundTrip(v, Before(front, n));
    }
  }

  lemma {:induction false} UndeltasRoundTrip(us: seq<u32>, n: nat)
    ensures Deltas(Undeltas(us, n), n) == us
  {
    if us != [] {
      var front, u := us[..|us| - 1], us[|us| - 1];
      UndeltasRoundTrip(front, n);
      assert us == front + [u];
      var before := Before(Undeltas(front, n), n);
      UndeltasNext(front, u, n);
      DeltasNext(Undeltas(front, n), Undelta(u, before), n);
      UndeltaRoundTrip(u, before);
    }
  }

  /** Words `k` onwards as varints. */
  function StreamFrom(us: seq<u32>, k: nat): seq<byte>
    requires k <= |us|
    decreases |us| - k
  {
    if k == |us| then [] else Leb(us[k]) + StreamFrom(us, k + 1)
  }

  /** The `total` words `input` spells, `us` having been read already; it must end with the last. */
  function ReadStream(input: seq<byte>, us: seq<u32>, total: nat): Result<seq<u32>>
    requires |us| <= total
    decreases total - |us|
  {
    if |us| == total then
      if input == [] then Ok(us) else Err(BadHeader)
    else
      var next := Varint.DecodeSpec(input);
      if next.Err? then Err(next.error)
      else
        VarintCanonical(input);
        ReadStream(input[next.value.1..], us + [next.value.0], total)
  }

  lemma {:induction false} StreamRoundTrip(us: seq<u32>, k: nat)
    requires k <= |us|
    ensures ReadStream(StreamFrom(us, k), us[..k], |us|) == Ok(us)
    decreases |us| - k
  {
    if k < |us| {
      var rest := StreamFrom(us, k + 1);
      VarintRoundTrip(us[k], rest);
      assert (Leb(us[k]) + rest)[|Leb(us[k])|..] == rest;
      assert us[..k] + [us[k]] == us[..k + 1];
      StreamRoundTrip(us, k + 1);
    } else {
      assert us[..k] == us;
    }
  }

  lemma FirstOf(all: seq<u32>, us: seq<u32>, u: u32)
    requires |us| < |all| && all[..|us| + 1] == us + [u]
    ensures all[..|us|] == us && all[|us|] == u
  {
    assert all[..|us|] == all[..|us| + 1][..|us|];
    assert all[|us|] == all[..|us| + 1][|us|];
  }

  /** One word taken off the front of a stream. */
  lemma StreamStep(input: seq<byte>, us: seq<u32>, total: nat) returns (u: u32, used: nat)
    requires |us| < total && ReadStream(input, us, total).Ok?
    ensures used <= |input| && input == Leb(u) + input[used..]
    ensures ReadStream(input, us, total) == ReadStream(input[used..], us + [u], total)
  {
    VarintCanonical(input);
    u := Varint.DecodeSpec(input).value.0;
    used := Varint.DecodeSpec(input).value.1;
    assert input == input[..used] + input[used..];
  }

  /** A list of words has one spelling: whatever reads back is what was written. */
  lemma {:induction false} StreamCanonical(input: seq<byte>, us: seq<u32>, total: nat)
    requires |us| <= total && ReadStream(input, us, total).Ok?
    ensures var all := ReadStream(input, us, total).value;
            |all| == total && all[..|us|] == us && input == StreamFrom(all, |us|)
    decreases total - |us|
  {
    if |us| == total {
      assert us[..|us|] == us;
    } else {
      var u, used := StreamStep(input, us, total);
      StreamCanonical(input[used..], us + [u], total);
      FirstOf(ReadStream(input, us, total).value, us, u);
    }
  }

  /** The samples of `input`, channel after channel. */
  function ByChannel(input: seq<byte>, channels: nat, width: nat, n: nat): (r: seq<i32>)
    requires Width(width) && |input| == Offset(Offset(n, channels), width)
    ensures |r| == Offset(channels, n) == Offset(n, channels)
  {
    Transposed(Samples(input, Offset(n, channels), width), n, channels)
  }

  function Interleaved(vs: seq<i32>, channels: nat, width: nat, n: nat): (r: seq<byte>)
    requires Width(width) && |vs| == Offset(channels, n)
    ensures |r| == Offset(Offset(n, channels), width)
  {
    Bytes(Transposed(vs, channels, n), width)
  }

  lemma InterleaveRoundTrip(input: seq<byte>, channels: nat, width: nat, n: nat)
    requires Width(width) && |input| == Offset(Offset(n, channels), width)
    ensures Interleaved(ByChannel(input, channels, width, n), channels, width, n) == input
  {
    TransposeTwice(Samples(input, Offset(n, channels), width), n, channels);
    BytesOfSamples(input, Offset(n, channels), width);
  }

  function Words(input: seq<byte>, channels: nat, width: nat): (r: seq<u32>)
    requires Width(width) && FrameLayout(|input|, channels, width).Ok?
  {
    LayoutMeans(|input|, channels, width);
    var n := FrameLayout(|input|, channels, width).value;
    Deltas(ByChannel(input, channels, width, n), n)
  }

  function EncodeSpec(input: seq<byte>, channels: nat, width: nat): Result<seq<byte>>
    requires Width(width)
  {
    var layout := FrameLayout(|input|, channels, width);
    if layout.Err? then Err(layout.error) else Ok(StreamFrom(Words(input, channels, width), 0))
  }

  /** Whole frames are what can be coded. */
  lemma WholeFrames(input: seq<byte>, channels: nat, width: nat)
    requires Width(width) && channels > 0
    ensures EncodeSpec(input, channels, width).Ok? <==> |input| % (width * channels) == 0
  {
    assert channels * width == width * channels;
  }

  function DecodeSpec(input: seq<byte>, channels: nat, width: nat, len: nat): (r: Result<seq<byte>>)
    requires Width(width)
    ensures r.Ok? ==> |r.value| == len
  {
    var layout := FrameLayout(len, channels, width);
    if layout.Err? then Err(layout.error)
    else
      var n := layout.value;
      LayoutMeans(len, channels, width);
      var words := ReadStream(input, [], Offset(channels, n));
      if words.Err? then Err(words.error)
      else
        StreamCanonical(input, [], Offset(channels, n));
        Ok(Interleaved(Undeltas(words.value, n), channels, width, n))
  }

  /** Lossless: whatever encodes decodes to the same bytes, samples of both widths, any
      number of channels, every value and every difference. */
  lemma NumericRoundTrip(input: seq<byte>, channels: nat, width: nat)
    requires Width(width) && EncodeSpec(input, channels, width).Ok?
    ensures DecodeSpec(EncodeSpec(input, channels, width).value, channels, width, |input|) == Ok(input)
  {
    var n := FrameLayout(|input|, channels, width).value;
    LayoutMeans(|input|, channels, width);
    var vs := ByChannel(input, channels, width, n);
    var us := Words(input, channels, width);
    assert us[..0] == [];
    StreamRoundTrip(us, 0);
    DeltasRoundTrip(vs, n);
    InterleaveRoundTrip(input, channels, width, n);
  }

  lemma SamplesFit(input: seq<byte>, n: nat, width: nat)
    requires Width(width) && |input| == Offset(n, width)
    ensures AllFit(Samples(input, n, width), width)
  {
  }

  lemma TransposedFits(vs: seq<i32>, rows: nat, cols: nat, width: nat)
    requires |vs| == Offset(rows, cols) && AllFit(vs, width)
    ensures AllFit(Transposed(vs, rows, cols), width)
  {
    forall k | 0 <= k < |vs| ensures Fits(Transposed(vs, rows, cols)[k], width) {
      assert Transposed(vs, rows, cols)[k] == At(vs, rows, cols, k);
    }
  }

  /** The values `input` spells, before they are cut to the sample width. */
  function Spelled(input: seq<byte>, channels: nat, width: nat, len: nat): (r: seq<i32>)
    requires Width(width) && DecodeSpec(input, channels, width, len).Ok?
  {
    var n := FrameLayout(len, channels, width).value;
    Undeltas(ReadStream(input, [], Offset(channels, n)).value, n)
  }

  lemma ChannelsOfInterleaved(vs: seq<i32>, channels: nat, width: nat, n: nat)
    requires Width(width) && |vs| == Offset(channels, n) && AllFit(vs, width)
    ensures ByChannel(Interleaved(vs, channels, width, n), channels, width, n) == vs
  {
    SameArea(channels, n);
    var grid := Transposed(vs, channels, n);
    TransposedFits(vs, channels, n, width);
    SamplesOfBytes(grid, width);
    TransposeTwice(vs, channels, n);
  }

  lemma ChannelsFit(input: seq<byte>, channels: nat, width: nat, n: nat)
    requires Width(width) && |input| == Offset(Offset(n, channels), width)
    ensures AllFit(ByChannel(input, channels, width, n), width)
  {
    SamplesFit(input, Offset(n, channels), width);
    TransposedFits(Samples(input, Offset(n, channels), width), n, channels, width);
  }

  /** An accepted encoding is the one the encoder writes exactly when every value it spells
      fits a sample: always for four-byte samples, not always for two-byte ones. */
  lemma NumericCanonical(input: seq<byte>, channels: nat, width: nat, len: nat)
    requires Width(width) && DecodeSpec(input, channels, width, len).Ok?
    ensures EncodeSpec(DecodeSpec(input, channels, width, len).value, channels, width) == Ok(input)
       <==> AllFit(Spelled(input, channels, width, len), width)
  {
    var n := FrameLayout(len, channels, width).value;
    LayoutMeans(len, channels, width);
    StreamCanonical(input, [], Offset(channels, n));
    var us := ReadStream(input, [], Offset(channels, n)).value;
    var vs := Undeltas(us, n);
    var data := DecodeSpec(input, channels, width, len).value;
    UndeltasRoundTrip(us, n);
    if AllFit(vs, width) {
      ChannelsOfInterleaved(vs, channels, width, n);
    }
    if EncodeSpec(data, channels, width) == Ok(input) {
      var words := Words(data, channels, width);
      assert words[..0] == [];
      StreamRoundTrip(words, 0);
      DeltasRoundTrip(ByChannel(data, channels, width, n), n);
      ChannelsFit(data, channels, width, n);
    }
  }

  /** Two spellings of one two-byte sample: a difference of 65536 is dropped by the cut. */
  lemma NarrowSpellingsDiffer()
    ensures DecodeSpec([0x80, 0x80, 0x08], 1, 2, 2) == DecodeSpec([0], 1, 2, 2) == Ok([0, 0])
  {
    var wide: seq<byte> := [0x80, 0x80, 0x08];
    var short: seq<byte> := [0];
    assert FrameLayout(2, 1, 2) == Ok(1) && Offset(1, 1) == 1;
    assert Leb(0x2_0000) == wide by {
      assert Leb(8) == [8];
      assert Leb(0x400) == [0x80] + Leb(8);
      assert Leb(0x2_0000) == [0x80] + Leb(0x400);
    }
    assert Leb(0) == short;
    StreamSingle(0x2_0000);
    StreamSingle(0);
    NarrowZero(0x2_0000);
    NarrowZero(0);
  }

  lemma StreamSingle(u: u32)
    ensures ReadStream(Leb(u), [], 1) == Ok([u])
  {
    StreamRoundTrip([u], 0);
    assert StreamFrom([u], 1) == [];
    assert StreamFrom([u], 0) == Leb(u) + [] == Leb(u);
    assert [u][..0] == [];
  }

  lemma NarrowZero(u: u32)
    requires u == 0 || u == 0x2_0000
    ensures Interleaved(Undeltas([u], 1), 1, 2, 1) == [0, 0]
  {
    assert Undeltas([u], 1) == [Undelta(u, 0)] by { assert [u][..0] == []; }
    var v := Undelta(u, 0);
    var ps := Written(Transposed([v], 1, 1), 2);
    assert Transposed([v], 1, 1)[0] == At([v], 1, 1, 0) == v;
    assert v % 0x1_0000 == 0;
    assert Le(0, 2) == [0] + Le(0, 1) && Le(0, 1) == [0] + Le(0, 0);
    assert WriteSample(v, 2) == [0, 0];
    assert ps == [[0, 0]] && ps[..0] == [];
    assert Joined(ps) == [] + [0, 0];
  }

  /** The most bytes one difference takes. */
  function MostBytes(width: nat): nat {
    if width == 2 then 3 else MAX_LEN
  }

  lemma DeltaLength(v: i32, previous: i32, width: nat)
    requires Width(width) && Fits(v, width) && Fits(previous, width)
    ensures |Leb(Delta(v, previous))| <= MostBytes(width)
  {
    if width == 2 { LebOfSmall(Delta(v, previous)); } else { LebLength(Delta(v, previous), 0); }
  }

  ghost predicate Short(us: seq<u32>, most: nat) {
    forall i :: 0 <= i < |us| ==> |Leb(us[i])| <= most
  }

  lemma {:induction false} StreamLength(us: seq<u32>, k: nat, most: nat)
    requires k <= |us| && Short(us, most)
    ensures |StreamFrom(us, k)| <= Offset(|us| - k, most)
    decreases |us| - k
  {
    if k < |us| { StreamLength(us, k + 1, most); }
  }

  lemma DeltasShort(vs: seq<i32>, n: nat, width: nat)
    requires Width(width) && AllFit(vs, width)
    ensures Short(Deltas(vs, n), MostBytes(width))
  {
    forall i | 0 <= i < |vs| ensures |Leb(Deltas(vs, n)[i])| <= MostBytes(width) {
      DeltaLength(vs[i], Before(vs[..i], n), width);
    }
  }

  /** Coding never more than half again a two-byte stream, a quarter again a four-byte one:
      twice the input is always room enough. */
  lemma NumericBound(input: seq<byte>, channels: nat, width: nat)
    requires Width(width) && EncodeSpec(input, channels, width).Ok?
    ensures var coded := EncodeSpec(input, channels, width).value;
            width * |coded| <= MostBytes(width) * |input| && |coded| <= 2 * |input|
  {
    var n := FrameLayout(|input|, channels, width).value;
    LayoutMeans(|input|, channels, width);
    var vs := ByChannel(input, channels, width, n);
    ChannelsFit(input, channels, width, n);
    DeltasShort(vs, n, width);
    StreamLength(Words(input, channels, width), 0, MostBytes(width));
    OffsetIsProduct(|vs|, MostBytes(width));
    OffsetIsProduct(|vs|, width);
  }

  lemma SlotOf(row: nat, col: nat, rows: nat, cols: nat, width: nat)
    requires row < rows && col < cols
    ensures Cell(row, col, cols) < Offset(rows, cols)
    ensures (row * cols + col) * width == Offset(Cell(row, col, cols), width)
    ensures Offset(Cell(row, col, cols), width) + width <= Offset(Offset(rows, cols), width)
  {
    CellFits(row, col, rows, cols);
    OffsetIsProduct(row, cols);
    OffsetIsProduct(Cell(row, col, cols), width);
    SlotFits(Cell(row, col, cols), Offset(rows, cols), width);
  }

  /** Where the loops find the sample they are at. */
  lemma SampleAt(input: seq<byte>, channels: nat, width: nat, n: nat, channel: nat, sample: nat)
    requires Width(width) && |input| == Offset(Offset(n, channels), width)
    requires channel < channels && sample < n
    ensures var offset := (sample * channels + channel) * width;
            offset + width <= |input| && Cell(channel, sample, n) < Offset(channels, n)
            && ByChannel(input, channels, width, n)[Cell(channel, sample, n)]
               == ReadSample(input[offset..offset + width])
  {
    var at := Cell(sample, channel, channels);
    var grid := Samples(input, Offset(n, channels), width);
    SlotOf(sample, channel, n, channels, width);
    TransposedAt(grid, n, channels, sample, channel);
    assert grid[at] == ReadSample(Piece(input, at, Offset(n, channels), width));
  }

  predicate SampleIs(input: seq<byte>, channels: nat, width: nat, channel: nat, sample: nat, v: i32)
    requires Width(width)
  {
    var offset := (sample * channels + channel) * width;
    offset + width <= |input| && ReadSample(input[offset..offset + width]) == v
  }

  lemma DeltaAt(vs: seq<i32>, n: nat, k: nat, v: i32, previous: i32)
    requires k < |vs| && vs[k] == v && Before(vs[..k], n) == previous
    ensures Deltas(vs, n)[k] == Delta(v, previous)
  {
  }

  /** The value before sample `s` of the channel that begins at `k`. */
  function Previous(vs: seq<i32>, k: nat, s: nat): i32
    requires k + s <= |vs|
  {
    if s == 0 then 0 else vs[k + s - 1]
  }

  lemma BeforeInRow(vs: seq<i32>, n: nat, channel: nat, s: nat)
    requires s < n && Cell(channel, s, n) <= |vs|
    ensures Before(vs[..Cell(channel, s, n)], n) == Previous(vs, Offset(channel, n), s)
  {
    PartsOfCell(channel, s, n);
  }

  /** Sample `s` of channel `channel` is value `k + s`, and word `k + s` its difference. */
  ghost predicate Ready(input: seq<byte>, channels: nat, width: nat, channel: nat,
                        vs: seq<i32>, us: seq<u32>, k: nat, s: nat)
    requires Width(width)
  {
    && k + s < |vs| == |us| && SampleIs(input, channels, width, channel, s, vs[k + s])
    && us[k + s] == Delta(vs[k + s], Previous(vs, k, s))
  }

  /** Channel `channel` of `input` is the `n` values from `k` on. */
  ghost predicate ChannelOf(input: seq<byte>, channels: nat, width: nat, n: nat, channel: nat,
                            vs: seq<i32>, us: seq<u32>, k: nat)
    requires Width(width)
  {
    k + n <= |vs| == |us| && forall s :: 0 <= s < n ==> Ready(input, channels, width, channel, vs, us, k, s)
  }

  lemma SampleReady(input: seq<byte>, channels: nat, width: nat, n: nat, channel: nat, vs: seq<i32>, s: nat)
    requires Width(width) && |input| == Offset(Offset(n, channels), width) && channel < channels && s < n
    requires vs == ByChannel(input, channels, width, n)
    ensures Ready(input, channels, width, channel, vs, Deltas(vs, n), Offset(channel, n), s)
  {
    SampleAt(input, channels, width, n, channel, s);
    BeforeInRow(vs, n, channel, s);
    var k := Offset(channel, n);
    DeltaAt(vs, n, k + s, vs[k + s], Previous(vs, k, s));
  }

  lemma RowIsChannel(input: seq<byte>, channels: nat, width: nat, n: nat, channel: nat, vs: seq<i32>)
    requires Width(width) && |input| == Offset(Offset(n, channels), width) && channel < channels
    requires vs == ByChannel(input, channels, width, n)
    ensures ChannelOf(input, channels, width, n, channel, vs, Deltas(vs, n), Offset(channel, n))
  {
    SlotFits(channel, channels, n);
    forall s | 0 <= s < n
      ensures Ready(input, channels, width, channel, vs, Deltas(vs, n), Offset(channel, n), s)
    {
      SampleReady(input, channels, width, n, channel, vs, s);
    }
  }

  lemma Appended(before: seq<byte>, piece: seq<byte>, rest: seq<byte>, out: seq<byte>, written: nat)
    requires |before| == written && written + |piece| <= |out|
    requires out[..written] == before && out[written..written + |piece|] == piece
    ensures before + (piece + rest) == out[..written + |piece|] + rest
  {
  }

  /** `before` and the stream from word `k` on make the whole. */
  ghost predicate Halfway(us: seq<u32>, k: nat, before: seq<byte>)
    requires k <= |us|
  {
    StreamFrom(us, 0) == before + StreamFrom(us, k)
  }

  /** `out` begins with `before` and then `piece`. */
  predicate Continues(out: seq<byte>, before: seq<byte>, piece: seq<byte>) {
    && |before| + |piece| <= |out| && out[..|before|] == before
    && out[|before|..|before| + |piece|] == piece
  }

  lemma NextWritten(us: seq<u32>, k: nat, before: seq<byte>, out: seq<byte>, written: nat)
    requires k < |us| && Halfway(us, k, before) && |before| == written
    ensures written + |Leb(us[k])| > |out| ==> |StreamFrom(us, 0)| > |out|
    ensures Continues(out, before, Leb(us[k])) ==> Halfway(us, k + 1, out[..written + |Leb(us[k])|])
  {
    if Continues(out, before, Leb(us[k])) { Appended(before, Leb(us[k]), StreamFrom(us, k + 1), out, written); }
  }

  /** One difference written: the stream so far and what is left of it still make the whole. */
  method WriteNext(v: i32, previous: i32, out: array<byte>, written: nat, ghost us: seq<u32>, ghost k: nat)
    returns (r: Result<nat>)
    requires written <= out.Length && k < |us| && us[k] == Delta(v, previous)
    requires Halfway(us, k, out[..written])
    modifies out
    ensures r.Ok? ==> written <= r.value <= out.Length
    ensures r.Ok? ==> Halfway(us, k + 1, out[..r.value])
    ensures r.Err? ==> r == Err(BufferTooSmall) && |StreamFrom(us, 0)| > out.Length
  {
    ghost var before := out[..written];
    var w := Varint.Encode(Delta(v, previous), out, written);
    NextWritten(us, k, before, out[..], written);
    if w.Err? { return Err(BufferTooSmall); }
    return Ok(written + w.value);
  }

  method ReadOne(input: seq<byte>, channels: nat, width: nat, channel: nat, sample: nat, ghost v: i32)
    returns (value: i32)
    requires Width(width) && SampleIs(input, channels, width, channel, sample, v)
    ensures value == v
  {
    var offset := (sample * channels + channel) * width;
    return ReadSample(input[offset..offset + width]);
  }

  /** One channel, differenced along time. */
  method EncodeChannel(input: seq<byte>, channels: nat, width: nat, n: nat, channel: nat, out: array<byte>,
                       start: nat, ghost vs: seq<i32>, ghost us: seq<u32>, ghost k: nat) returns (r: Result<nat>)
    requires Width(width) && start <= out.Length
    requires ChannelOf(input, channels, width, n, channel, vs, us, k)
    requires Halfway(us, k, out[..start])
    modifies out
    ensures r.Ok? ==> r.value <= out.Length && Halfway(us, k + n, out[..r.value])
    ensures r.Err? ==> r == Err(BufferTooSmall) && |StreamFrom(us, 0)| > out.Length
  {
    var written: nat := start;
    var previous: i32 := 0;
    for sample := 0 to n
      invariant written <= out.Length
      invariant Halfway(us, k + sample, out[..written])
      invariant previous == Previous(vs, k, sample)
    {
      assert Ready(input, channels, width, channel, vs, us, k, sample);
      var value := ReadOne(input, channels, width, channel, sample, vs[k + sample]);
      var w := WriteNext(value, previous, out, written, us, k + sample);
      if w.Err? { return w; }
      previous := value;
      written := w.value;
    }
    return Ok(written);
  }

  method EncodeChannels(input: seq<byte>, channels: nat, width: nat, n: nat, out: array<byte>,
                        ghost vs: seq<i32>, ghost us: seq<u32>) returns (r: Result<nat>)
    requires Width(width) && |us| == Offset(channels, n)
    requires forall channel :: 0 <= channel < channels ==>
               ChannelOf(input, channels, width, n, channel, vs, us, Offset(channel, n))
    modifies out
    ensures var coded := StreamFrom(us, 0);
            if |coded| <= out.Length then r == Ok(|coded|) && out[..|coded|] == coded
            else r == Err(BufferTooSmall)
  {
    var written: nat := 0;
    for channel := 0 to channels
      invariant written <= out.Length && Offset(channel, n) <= |us|
      invariant Halfway(us, Offset(channel, n), out[..written])
    {
      var w := EncodeChannel(input, channels, width, n, channel, out, written, vs, us, Offset(channel, n));
      if w.Err? { return w; }
      written := w.value;
    }
    return Ok(written);
  }

  method Encode(input: seq<byte>, channels: nat, width: nat, out: array<byte>) returns (r: Result<nat>)
    requires Width(width)
    modifies out
    ensures var coded := EncodeSpec(input, channels, width);
            r == if coded.Err? then Err(coded.error)
                 else if |coded.value| <= out.Length then Ok(|coded.value|)
                 else Err(BufferTooSmall)
    ensures r.Ok? ==> out[..r.value] == EncodeSpec(input, channels, width).value
  {
    var layout := FrameLayout(|input|, channels, width);
    if layout.Err? { return Err(layout.error); }
    LayoutMeans(|input|, channels, width);
    var n := layout.value;
    ghost var vs := ByChannel(input, channels, width, n);
    forall channel | 0 <= channel < channels
      ensures ChannelOf(input, channels, width, n, channel, vs, Deltas(vs, n), Offset(channel, n))
    {
      RowIsChannel(input, channels, width, n, channel, vs);
    }
    r := EncodeChannels(input, channels, width, n, out, vs, Deltas(vs, n));
  }

  /** Where the `k`-th value, channel by channel, belongs among the interleaved samples. */
  function SlotAt(k: nat, channels: nat, n: nat): (slot: nat)
    requires k < Offset(channels, n)
    ensures slot < Offset(n, channels)
  {
    NonEmpty(channels, n, k);
    Mirror(k, channels, n)
  }

  /** The values so far sit in their slots. */
  ghost predicate Placed(out: seq<byte>, vs: seq<i32>, channels: nat, width: nat, n: nat)
    requires Width(width) && |vs| <= Offset(channels, n) && Offset(Offset(n, channels), width) <= |out|
  {
    forall k :: 0 <= k < |vs| ==>
      Piece(out, SlotAt(k, channels, n), Offset(n, channels), width) == WriteSample(vs[k], width)
  }

  lemma Overwritten(out: seq<byte>, x: nat, y: nat, data: seq<byte>, out': seq<byte>)
    requires x + |data| <= |out| && y + |data| <= |out| && out' == out[..x] + data + out[x + |data|..]
    requires y == x || y + |data| <= x || x + |data| <= y
    ensures |out'| == |out| && out'[y..y + |data|] == if y == x then data else out[y..y + |data|]
  {
    var piece, kept := out'[y..y + |data|], if y == x then data else out[y..y + |data|];
    assert forall i :: 0 <= i < |data| ==> piece[i] == kept[i];
  }

  lemma SlotsDiffer(k: nat, m: nat, channels: nat, n: nat)
    requires k < m < Offset(channels, n)
    ensures SlotAt(k, channels, n) != SlotAt(m, channels, n)
  {
    NonEmpty(channels, n, m);
    MirrorTwice(k, channels, n);
    MirrorTwice(m, channels, n);
  }

  lemma PlaceOne(out: seq<byte>, vs: seq<i32>, channels: nat, width: nat, n: nat, v: i32, out': seq<byte>)
    requires Width(width) && |vs| < Offset(channels, n) && Offset(Offset(n, channels), width) <= |out|
    requires Placed(out, vs, channels, width, n)
    requires var offset := Offset(SlotAt(|vs|, channels, n), width);
             offset + width <= |out| && out' == out[..offset] + WriteSample(v, width) + out[offset + width..]
    ensures |out'| == |out| && Placed(out', vs + [v], channels, width, n)
  {
    var area := Offset(n, channels);
    var slot := SlotAt(|vs|, channels, n);
    var data := WriteSample(v, width);
    forall k | 0 <= k <= |vs|
      ensures Piece(out', SlotAt(k, channels, n), area, width) == WriteSample((vs + [v])[k], width)
    {
      var at := SlotAt(k, channels, n);
      OffsetsApart(at, slot, area, width);
      Overwritten(out, Offset(slot, width), Offset(at, width), data, out');
      if k < |vs| {
        SlotsDiffer(k, |vs|, channels, n);
        assert Piece(out', at, area, width) == Piece(out, at, area, width);
      }
    }
  }

  lemma AllPlaced(out: seq<byte>, vs: seq<i32>, channels: nat, width: nat, n: nat)
    requires Width(width) && |vs| == Offset(channels, n) && Offset(Offset(n, channels), width) == |out|
    requires Placed(out, vs, channels, width, n)
    ensures out == Interleaved(vs, channels, width, n)
  {
    var area := Offset(n, channels);
    SameArea(n, channels);
    var grid := Transposed(vs, channels, n);
    forall i | 0 <= i < area ensures Piece(out, i, area, width) == Written(grid, width)[i] {
      NonEmpty(n, channels, i);
      var k := Mirror(i, n, channels);
      MirrorTwice(i, n, channels);
      assert grid[i] == At(vs, channels, n, i) == vs[k];
      assert SlotAt(k, channels, n) == i;
    }
    assert Pieces(out, area, width) == Written(grid, width);
    JoinedPieces(out, area, width);
  }

  /** The part of the decoder's work that is behind it: `us` has been read from the front of
      `input`, and the samples it spells are in their places. */
  ghost predicate Progress(input: seq<byte>, read: nat, us: seq<u32>, channels: nat, width: nat, n: nat, out: seq<byte>)
    requires Width(width)
  {
    var total := Offset(channels, n);
    && read <= |input| && |us| <= total
    && ReadStream(input, [], total) == ReadStream(input[read..], us, total)
    && Offset(Offset(n, channels), width) <= |out|
    && Placed(out, Undeltas(us, n), channels, width, n)
  }

  lemma Drop(input: seq<byte>, read: nat, used: nat)
    requires read + used <= |input|
    ensures input[read..][used..] == input[read + used..]
  {
  }

  lemma SlotOfCell(channel: nat, sample: nat, channels: nat, n: nat, width: nat)
    requires channel < channels && sample < n
    ensures Cell(channel, sample, n) < Offset(channels, n)
    ensures (sample * channels + channel) * width == Offset(SlotAt(Cell(channel, sample, n), channels, n), width)
    ensures (sample * channels + channel) * width + width <= Offset(Offset(n, channels), width)
  {
    MirrorOfCell(channel, sample, channels, n);
    SlotOf(sample, channel, n, channels, width);
  }

  /** One word read, or the error that stops the reading. */
  method ReadWord(input: seq<byte>, read: nat, ghost us: seq<u32>, ghost total: nat) returns (r: Result<(u32, nat)>)
    requires read <= |input| && |us| < total
    ensures r.Err? ==> ReadStream(input[read..], us, total) == Err(r.error)
    ensures r.Ok? ==> r.value.1 <= |input|
    ensures r.Ok? ==> ReadStream(input[read..], us, total) == ReadStream(input[r.value.1..], us + [r.value.0], total)
  {
    var next := Varint.Decode(input[read..]);
    if next.Err? { return Err(next.error); }
    VarintCanonical(input[read..]);
    Drop(input, read, next.value.1);
    return Ok((next.value.0, read + next.value.1));
  }

  /** What lies past the samples. */
  function Rest(out: seq<byte>, channels: nat, width: nat, n: nat): seq<byte> {
    var len := Offset(Offset(n, channels), width);
    if len <= |out| then out[len..] else []
  }

  lemma ProgressNext(input: seq<byte>, read: nat, us: seq<u32>, channels: nat, width: nat, n: nat, out: seq<byte>,
                     u: u32, read': nat, out': seq<byte>)
    requires Width(width) && Progress(input, read, us, channels, width, n, out)
    requires |us| < Offset(channels, n) && read' <= |input|
    requires ReadStream(input[read..], us, Offset(channels, n)) == ReadStream(input[read'..], us + [u], Offset(channels, n))
    requires var offset := Offset(SlotAt(|us|, channels, n), width);
             var value := Undelta(u, Before(Undeltas(us, n), n));
             offset + width <= |out| && out' == out[..offset] + WriteSample(value, width) + out[offset + width..]
    ensures Progress(input, read', us + [u], channels, width, n, out')
    ensures Undeltas(us + [u], n)[|us|] == Undelta(u, Before(Undeltas(us, n), n))
    ensures Rest(out', channels, width, n) == Rest(out, channels, width, n)
  {
    UndeltasNext(us, u, n);
    SlotFits(SlotAt(|us|, channels, n), Offset(n, channels), width);
    PlaceOne(out, Undeltas(us, n), channels, width, n, Undelta(u, Before(Undeltas(us, n), n)), out');
  }

  /** One word read, its difference undone, the sample written where it belongs. */
  method DecodeSample(input: seq<byte>, channels: nat, width: nat, n: nat, channel: nat, sample: nat,
                      read: nat, previous: i32, out: array<byte>, ghost us: seq<u32>)
    returns (r: Result<(nat, i32)>, ghost us': seq<u32>)
    requires Width(width) && channel < channels && sample < n && |us| == Cell(channel, sample, n)
    requires Progress(input, read, us, channels, width, n, out[..])
    requires previous == Before(Undeltas(us, n), n)
    modifies out
    ensures Rest(out[..], channels, width, n) == Rest(old(out[..]), channels, width, n)
    ensures r.Err? ==> ReadStream(input, [], Offset(channels, n)) == Err(r.error)
    ensures r.Ok? ==> |us'| == |us| + 1 && Progress(input, r.value.0, us', channels, width, n, out[..])
    ensures r.Ok? ==> r.value.1 == Undeltas(us', n)[|us|]
  {
    us' := us;
    SlotOfCell(channel, sample, channels, n, width);
    var next := ReadWord(input, read, us, Offset(channels, n));
    if next.Err? { return Err(next.error), us; }
    var value := Undelta(next.value.0, previous);
    var offset := (sample * channels + channel) * width;
    ghost var before := out[..];
    CopyInto(out, offset, WriteSample(value, width));
    us' := us + [next.value.0];
    ProgressNext(input, read, us, channels, width, n, before, next.value.0, next.value.1, out[..]);
    r := Ok((next.value.1, value));
  }

  lemma BeforeNext(vs: seq<i32>, n: nat, channel: nat, sample: nat)
    requires sample < n && |vs| == Cell(channel, sample, n)
    ensures Before(vs, n) == if sample == 0 then 0 else vs[|vs| - 1]
  {
    PartsOfCell(channel, sample, n);
  }

  method DecodeChannel(input: seq<byte>, channels: nat, width: nat, n: nat, channel: nat,
                       start: nat, out: array<byte>, ghost us0: seq<u32>)
    returns (r: Result<nat>, ghost us: seq<u32>)
    requires Width(width) && channel < channels && |us0| == Offset(channel, n)
    requires Progress(input, start, us0, channels, width, n, out[..])
    modifies out
    ensures Rest(out[..], channels, width, n) == Rest(old(out[..]), channels, width, n)
    ensures r.Err? ==> ReadStream(input, [], Offset(channels, n)) == Err(r.error)
    ensures r.Ok? ==> |us| == Offset(channel + 1, n) && Progress(input, r.value, us, channels, width, n, out[..])
  {
    us := us0;
    var read: nat := start;
    var previous: i32 := 0;
    for sample := 0 to n
      invariant |us| == Cell(channel, sample, n)
      invariant Progress(input, read, us, channels, width, n, out[..])
      invariant previous == if sample == 0 then 0 else Undeltas(us, n)[|us| - 1]
      invariant Rest(out[..], channels, width, n) == Rest(old(out[..]), channels, width, n)
    {
      BeforeNext(Undeltas(us, n), n, channel, sample);
      var next;
      next, us := DecodeSample(input, channels, width, n, channel, sample, read, previous, out, us);
      if next.Err? { return Err(next.error), us; }
      read, previous := next.value.0, next.value.1;
    }
    r := Ok(read);
  }

  method DecodeChannels(input: seq<byte>, channels: nat, width: nat, n: nat, out: array<byte>)
    returns (r: Result<nat>, ghost us: seq<u32>)
    requires Width(width) && Offset(Offset(n, channels), width) <= out.Length
    modifies out
    ensures Rest(out[..], channels, width, n) == Rest(old(out[..]), channels, width, n)
    ensures r.Err? ==> ReadStream(input, [], Offset(channels, n)) == Err(r.error)
    ensures r.Ok? ==> |us| == Offset(channels, n) && Progress(input, r.value, us, channels, width, n, out[..])
  {
    us := [];
    var read: nat := 0;
    assert input[0..] == input;
    for channel := 0 to channels
      invariant |us| == Offset(channel, n)
      invariant Progress(input, read, us, channels, width, n, out[..])
      invariant Rest(out[..], channels, width, n) == Rest(old(out[..]), channels, width, n)
    {
      SlotFits(channel, channels, n);
      var next;
      next, us := DecodeChannel(input, channels, width, n, channel, read, out, us);
      if next.Err? { return next, us; }
      read := next.value;
    }
    r := Ok(read);
  }

  lemma PlacedFront(out: seq<byte>, vs: seq<i32>, channels: nat, width: nat, n: nat)
    requires Width(width) && |vs| == Offset(channels, n) && Offset(Offset(n, channels), width) <= |out|
    requires Placed(out, vs, channels, width, n)
    ensures Placed(out[..Offset(Offset(n, channels), width)], vs, channels, width, n)
  {
    var area := Offset(n, channels);
    var front := out[..Offset(area, width)];
    forall k | 0 <= k < |vs| ensures Piece(front, SlotAt(k, channels, n), area, width) == WriteSample(vs[k], width) {
      SlotFits(SlotAt(k, channels, n), area, width);
      assert Piece(front, SlotAt(k, channels, n), area, width) == Piece(out, SlotAt(k, channels, n), area, width);
    }
  }

  lemma Finished(out: seq<byte>, vs: seq<i32>, channels: nat, width: nat, n: nat)
    requires Width(width) && |vs| == Offset(channels, n) && Offset(Offset(n, channels), width) <= |out|
    requires Placed(out, vs, channels, width, n)
    ensures out[..Offset(Offset(n, channels), width)] == Interleaved(vs, channels, width, n)
  {
    PlacedFront(out, vs, channels, width, n);
    AllPlaced(out[..Offset(Offset(n, channels), width)], vs, channels, width, n);
  }

  method Decode(input: seq<byte>, channels: nat, width: nat, len: nat, out: array<byte>) returns (r: Result<nat>)
    requires Width(width)
    modifies out
    ensures var spec := DecodeSpec(input, channels, width, len);
            if FrameLayout(len, channels, width).Err? then r == Err(BadHeader)
            else if out.Length < len then r == Err(BufferTooSmall)
            else if spec.Err? then r == Err(spec.error)
            else r == Ok(len) && out[..] == spec.value + old(out[len..])
  {
    var layout := FrameLayout(len, channels, width);
    if layout.Err? { return Err(layout.error); }
    if out.Length < len { return Err(BufferTooSmall); }
    var n := layout.value;
    LayoutMeans(len, channels, width);
    ghost var was := out[..];
    ghost var us;
    var read;
    read, us := DecodeChannels(input, channels, width, n, out);
    if read.Err? { return Err(read.error); }
    assert input[read.value..] == [] <==> read.value == |input|;
    if read.value != |input| { return Err(BadHeader); }
    Finished(out[..], Undeltas(us, n), channels, width, n);
    assert out[len..] == was[len..];
    return Ok(len);
  }
}
