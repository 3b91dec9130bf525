/** What the codecs write, byte for byte, apart from how it is undone. */
module CodecForms {
  import opened Bits
  import opened Outcomes
  import opened Strides
  import opened Wire
  import opened Varint
  import opened Numeric
  import Transpose

  // ---- Varints ---------------------------------------------------------------------------------

  /** Seven bits from each byte, the lowest first. */
  function Sevens(s: seq<byte>): nat {
    if s == [] then 0 else s[0] % 128 + 128 * Sevens(s[1..])
  }

  /** The eighth bit is set on every byte but the last, and the last is not an idle zero. */
  predicate Chained(s: seq<byte>) {
    && s != [] && s[|s| - 1] < 128 && (|s| > 1 ==> s[|s| - 1] > 0)
    && forall i :: 0 <= i < |s| - 1 ==> s[i] >= 128
  }

  lemma {:induction false} VarintIs(v: nat)
    ensures Chained(Leb(v)) && Sevens(Leb(v)) == v
  {
    if v >= 128 {
      VarintIs(v / 128);
      var rest := Leb(v / 128);
      assert Leb(v)[1..] == rest;
      assert (v % 128 + 128) % 128 == v % 128;
      assert rest[|rest| - 1] > 0 by {
        if |rest| == 1 { assert Sevens(rest) == rest[0] % 128 + 128 * Sevens(rest[1..]); }
      }
    } else {
      assert Leb(v)[1..] == [];
    }
  }

  // ---- Deltas ------------------------------------------------------------------------------------

  function Flat(pieces: seq<seq<byte>>): seq<byte> {
    if pieces == [] then [] else pieces[0] + Flat(pieces[1..])
  }

  function Spelt(words: seq<u32>): (r: seq<seq<byte>>)
    ensures |r| == |words| && forall i :: 0 <= i < |r| ==> r[i] == Leb(words[i])
  {
    seq(|words|, i requires 0 <= i < |words| => Leb(words[i]))
  }

  lemma {:induction false} StreamIsFlat(words: seq<u32>, k: nat)
    requires k <= |words|
    ensures StreamFrom(words, k) == Flat(Spelt(words)[k..])
    decreases |words| - k
  {
    if k < |words| {
      StreamIsFlat(words, k + 1);
      assert Spelt(words)[k..][1..] == Spelt(words)[k + 1..];
    }
  }

  /** A little-endian sample in two's complement. */
  function Sample(b: seq<byte>): int
    requires |b| == 2 || |b| == 4
  {
    var low: nat, high: nat := b[0], b[1];
    if |b| == 2 then
      if high < 128 then low + 256 * high else low + 256 * high - 65536
    else
      var third: nat, fourth: nat := b[2], b[3];
      var n := low + 256 * high + 65536 * third + 16777216 * fourth;
      if fourth < 128 then n else n - 4294967296
  }

  /** Where a sample begins, frame after frame. */
  function Place(channels: nat, width: nat, channel: nat, sample: nat): nat {
    (sample * channels + channel) * width
  }

  function SampleFrom(input: seq<byte>, at: nat, width: nat): int
    requires width == 2 || width == 4
  {
    if at + width <= |input| then Sample(input[at..at + width]) else 0
  }

  function SampleOf(input: seq<byte>, channels: nat, width: nat, channel: nat, sample: nat): int
    requires width == 2 || width == 4
  {
    SampleFrom(input, Place(channels, width, channel, sample), width)
  }

  /** The sample before it in its channel; nothing comes before the first. */
  function EarlierOf(input: seq<byte>, channels: nat, width: nat, channel: nat, sample: nat): int
    requires width == 2 || width == 4
  {
    if sample == 0 then 0 else SampleOf(input, channels, width, channel, sample - 1)
  }

  /** `word` is the difference `d`, up to a multiple of 2^32, with its sign in the lowest bit. */
  predicate Folds(word: u32, d: int) {
    var half := if word % 2 == 0 then word / 2 else -(word / 2) - 1;
    half == d || half == d + 4294967296 || half == d - 4294967296
  }

  /** The word of one sample: what it differs by from the sample before it in its channel, the
      first of a channel from nothing. */
  ghost predicate WordIs(input: seq<byte>, channels: nat, width: nat, channel: nat, sample: nat, word: u32)
    requires width == 2 || width == 4
  {
    Folds(word, SampleOf(input, channels, width, channel, sample) - EarlierOf(input, channels, width, channel, sample))
  }

  lemma DeltaFolds(v: i32, previous: i32)
    ensures Folds(Delta(v, previous), v - previous)
  {
  }

  lemma SampleIsRead(b: seq<byte>)
    requires Width(|b|)
    ensures ReadSample(b) == Sample(b)
  {
  }

  ghost predicate WordAt(input: seq<byte>, channels: nat, width: nat, n: nat, words: seq<u32>, channel: nat, sample: nat)
    requires width == 2 || width == 4
  {
    var k := channel * n + sample;
    k < |words| && WordIs(input, channels, width, channel, sample, words[k])
  }

  /** Channel after channel, sample after sample. */
  ghost predicate AreDeltas(input: seq<byte>, channels: nat, width: nat, words: seq<u32>)
    requires (width == 2 || width == 4) && channels > 0
  {
    var n := |input| / (channels * width);
    && |words| == channels * n
    && forall channel: nat, sample: nat :: channel < channels && sample < n ==>
         WordAt(input, channels, width, n, words, channel, sample)
  }

  lemma SampleOfIs(input: seq<byte>, channels: nat, width: nat, n: nat, channel: nat, sample: nat)
    requires Width(width) && |input| == Offset(Offset(n, channels), width) && channel < channels && sample < n
    ensures Cell(channel, sample, n) < |ByChannel(input, channels, width, n)|
    ensures ByChannel(input, channels, width, n)[Cell(channel, sample, n)] == SampleOf(input, channels, width, channel, sample)
  {
    var at := Place(channels, width, channel, sample);
    ReadAt(input, channels, width, n, channel, sample, at);
    SampleIsRead(input[at..at + width]);
  }

  lemma ReadAt(input: seq<byte>, channels: nat, width: nat, n: nat, channel: nat, sample: nat, at: nat)
    requires Width(width) && |input| == Offset(Offset(n, channels), width) && channel < channels && sample < n
    requires at == Place(channels, width, channel, sample)
    ensures at + width <= |input| && Cell(channel, sample, n) < |ByChannel(input, channels, width, n)|
    ensures ByChannel(input, channels, width, n)[Cell(channel, sample, n)] == ReadSample(input[at..at + width])
  {
    SampleAt(input, channels, width, n, channel, sample);
  }

  lemma DeltaIs(vs: seq<i32>, n: nat, channel: nat, sample: nat)
    requires sample < n && Cell(channel, sample, n) < |vs|
    ensures var k := Cell(channel, sample, n);
            Deltas(vs, n)[k] == Delta(vs[k], if sample == 0 then 0 else vs[k - 1])
  {
    var k := Cell(channel, sample, n);
    PartsOfCell(channel, sample, n);
    assert |vs[..k]| == k;
  }

  lemma WordIsDelta(input: seq<byte>, channels: nat, width: nat, channel: nat, sample: nat, v: i32, previous: i32)
    requires width == 2 || width == 4
    requires v == SampleOf(input, channels, width, channel, sample)
    requires previous == EarlierOf(input, channels, width, channel, sample)
    ensures WordIs(input, channels, width, channel, sample, Delta(v, previous))
  {
    DeltaFolds(v, previous);
  }

  lemma EarlierIs(input: seq<byte>, channels: nat, width: nat, n: nat, channel: nat, sample: nat) returns (previous: i32)
    requires Width(width) && |input| == Offset(Offset(n, channels), width) && channel < channels && sample < n
    ensures previous == EarlierOf(input, channels, width, channel, sample)
    ensures Cell(channel, sample, n) < |ByChannel(input, channels, width, n)|
    ensures Deltas(ByChannel(input, channels, width, n), n)[Cell(channel, sample, n)] ==
            Delta(ByChannel(input, channels, width, n)[Cell(channel, sample, n)], previous)
  {
    CellFits(channel, sample, channels, n);
    DeltaIs(ByChannel(input, channels, width, n), n, channel, sample);
    if sample == 0 {
      previous := 0;
    } else {
      previous := OneBack(input, channels, width, n, channel, sample);
    }
  }

  lemma OneBack(input: seq<byte>, channels: nat, width: nat, n: nat, channel: nat, sample: nat) returns (previous: i32)
    requires Width(width) && |input| == Offset(Offset(n, channels), width) && channel < channels && 0 < sample < n
    ensures Cell(channel, sample, n) < |ByChannel(input, channels, width, n)|
    ensures previous == ByChannel(input, channels, width, n)[Cell(channel, sample, n) - 1]
    ensures previous == SampleOf(input, channels, width, channel, sample - 1)
  {
    CellFits(channel, sample, channels, n);
    SampleOfIs(input, channels, width, n, channel, sample - 1);
    previous := ByChannel(input, channels, width, n)[Cell(channel, sample, n) - 1];
  }

  lemma WordOf(input: seq<byte>, channels: nat, width: nat, n: nat, channel: nat, sample: nat)
    requires Width(width) && FrameLayout(|input|, channels, width) == Ok(n) && channel < channels && sample < n
    ensures WordAt(input, channels, width, n, Words(input, channels, width), channel, sample)
  {
    LayoutMeans(|input|, channels, width);
    SampleOfIs(input, channels, width, n, channel, sample);
    var previous := EarlierIs(input, channels, width, n, channel, sample);
    WordIsDelta(input, channels, width, channel, sample,
                ByChannel(input, channels, width, n)[Cell(channel, sample, n)], previous);
    OffsetIsProduct(channel, n);
  }

  lemma WordsAre(input: seq<byte>, channels: nat, width: nat)
    requires Width(width) && channels > 0 && FrameLayout(|input|, channels, width).Ok?
    ensures AreDeltas(input, channels, width, Words(input, channels, width))
  {
    var n := |input| / (channels * width);
    LayoutMeans(|input|, channels, width);
    OffsetIsProduct(channels, n);
    forall channel: nat, sample: nat | channel < channels && sample < n
      ensures WordAt(input, channels, width, n, Words(input, channels, width), channel, sample)
    {
      WordOf(input, channels, width, n, channel, sample);
    }
  }

  /** The delta coding of whole frames is a varint for each sample's difference from the one
      before it in its channel. */
  lemma DeltaStreamIs(input: seq<byte>, channels: nat, width: nat) returns (words: seq<u32>)
    requires (width == 2 || width == 4) && channels > 0 && |input| % (channels * width) == 0
    ensures EncodeSpec(input, channels, width) == Ok(Flat(Spelt(words))) && AreDeltas(input, channels, width, words)
  {
    words := Words(input, channels, width);
    WordsAre(input, channels, width);
    StreamIsFlat(words, 0);
    assert Spelt(words)[0..] == Spelt(words);
  }

  // ---- Transposition -----------------------------------------------------------------------------------

  ghost predicate MovedTo(input: seq<byte>, out: seq<byte>, size: nat, n: nat, e: nat, b: nat) {
    var from, to := e * size + b, b * n + e;
    from < |input| && to < |out| && out[to] == input[from]
  }

  lemma OneByte(input: seq<byte>, size: nat, e: nat, b: nat)
    requires size > 0 && e < |input| / size && b < size
    ensures MovedTo(input, Transpose.Shuffled(input, size), size, |input| / size, e, b)
  {
    var n, body := |input| / size, Transpose.Body(|input|, size);
    TransposedAt(input[..body], n, size, e, b);
    OffsetIsProduct(b, n);
    OffsetIsProduct(e, size);
  }

  /** Byte `b` of element `e` goes to place `e` of the `b`-th group; what is left over stays. */
  lemma ShuffledIs(input: seq<byte>, size: nat)
    requires size > 0
    ensures var n, out := |input| / size, Transpose.Shuffled(input, size);
            && |out| == |input|
            && (forall e: nat, b: nat :: e < n && b < size ==> MovedTo(input, out, size, n, e, b))
            && out[n * size..] == input[n * size..]
  {
    var n, body := |input| / size, Transpose.Body(|input|, size);
    forall e: nat, b: nat | e < n && b < size
      ensures MovedTo(input, Transpose.Shuffled(input, size), size, n, e, b)
    {
      OneByte(input, size, e, b);
    }
    assert body == n * size;
    Transpose.Halves(Transposed(input[..body], n, size), input[body..]);
  }
}
