/** LEB128 varints (section 7.6 of DWARF 5, shortest form only) and the zigzag mapping. */
module Varint {
  import opened Bits
  import opened Outcomes
  import opened Wire

  const MAX_LEN: nat := 5
  const I32_MIN: int := -0x8000_0000
  const I32_MAX: int := 0x7fff_ffff

  type i32 = x: int | -0x8000_0000 <= x <= 0x7fff_ffff

  function Zigzag(v: i32): u32 {
    if v >= 0 then 2 * v else -2 * v - 1
  }

  function Unzigzag(u: u32): i32 {
    if u % 2 == 0 then u / 2 else -(u / 2) - 1
  }

  /** Brings a sum or difference of two 32-bit integers back into 32 bits. */
  function Wrap(x: int): i32
    requires 2 * I32_MIN <= x <= 2 * I32_MAX + 1
  {
    if x < I32_MIN then x + U32 else if x > I32_MAX then x - U32 else x
  }

  lemma ZigzagRoundTrip(v: i32)
    ensures Unzigzag(Zigzag(v)) == v
  {
  }

  lemma UnzigzagRoundTrip(u: u32)
    ensures Zigzag(Unzigzag(u)) == u
  {
  }

  /** Wrapping subtraction then addition, and the other way round, give the value back. */
  lemma WrapRoundTrip(value: i32, previous: i32)
    ensures Wrap(previous + Wrap(value - previous)) == value
    ensures Wrap(Wrap(previous + value) - previous) == value
  {
  }

  function Leb(v: nat): (r: seq<byte>)
    ensures |r| >= 1
  {
    if v < 128 then [v] else [v % 128 + 128] + Leb(v / 128)
  }

  /** How much a varint may still hold from byte `n` on. */
  function Room(n: nat): nat
    requires n < MAX_LEN
  {
    match n
    case 0 => U32
    case 1 => 0x200_0000
    case 2 => 0x4_0000
    case 3 => 0x800
    case 4 => 0x10
  }

  lemma RoomDown(v: nat, n: nat)
    requires n < MAX_LEN && 128 <= v < Room(n)
    ensures n + 1 < MAX_LEN && 0 < v / 128 < Room(n + 1)
  {
  }

  lemma RoomUp(low: nat, high: nat, n: nat)
    requires n + 1 < MAX_LEN && low < 128 && high < Room(n + 1)
    ensures low + 128 * high < Room(n)
  {
  }

  lemma {:induction false} LebLength(v: nat, n: nat)
    requires n < MAX_LEN && v < Room(n)
    ensures |Leb(v)| <= MAX_LEN - n
    decreases v
  {
    if v >= 128 {
      RoomDown(v, n);
      LebLength(v / 128, n + 1);
    }
  }

  lemma LebOfSmall(v: nat)
    requires v < 0x20_0000
    ensures |Leb(v)| <= 3
  {
    var w := v / 128;
    var x := w / 128;
    assert x < 128;
    assert |Leb(x)| == 1;
    assert |Leb(w)| <= 2;
  }

  /** The value at the front of `input`, of which `n` bytes were read before, and the
      bytes it takes. Five bytes at most in all, nothing past 32 bits, and no final
      byte that carries nothing. */
  function DecodeFrom(input: seq<byte>, n: nat): (r: Result<(nat, nat)>)
    ensures r.Ok? ==> 0 < r.value.1 <= |input| && r.value.1 + n <= MAX_LEN
    decreases |input|
  {
    if input == [] || n >= MAX_LEN then Err(BadHeader)
    else if n == 4 && input[0] % 128 >= 16 then Err(BadHeader)
    else if input[0] >= 128 then
      Prepended(input[0] % 128, DecodeFrom(input[1..], n + 1))
    else if n > 0 && input[0] == 0 then Err(BadHeader)
    else Ok((input[0] as nat, 1))
  }

  /** The value at the front of `input` and the bytes it took. */
  function DecodeSpec(input: seq<byte>): Result<(nat, nat)> {
    DecodeFrom(input, 0)
  }

  lemma SplitByte(v: nat)
    ensures (v % 128 + 128) % 128 == v % 128 && v % 128 + 128 * (v / 128) == v
  {
  }

  lemma {:induction false} DecodeLeb(v: nat, rest: seq<byte>, n: nat)
    requires n < MAX_LEN && v < Room(n) && (n > 0 ==> v > 0)
    ensures DecodeFrom(Leb(v) + rest, n) == Ok((v, |Leb(v)|))
    decreases v
  {
    var input := Leb(v) + rest;
    if v >= 128 {
      RoomDown(v, n);
      DecodeLeb(v / 128, rest, n + 1);
      assert input[0] == v % 128 + 128;
      assert input[1..] == Leb(v / 128) + rest;
      SplitByte(v);
    } else {
      assert input[0] == v;
    }
  }

  /** What was encoded is what is decoded, whatever follows it. */
  lemma VarintRoundTrip(v: u32, rest: seq<byte>)
    ensures DecodeSpec(Leb(v) + rest) == Ok((v, |Leb(v)|)) && |Leb(v)| <= MAX_LEN
  {
    LebLength(v, 0);
    DecodeLeb(v, rest, 0);
  }

  lemma LebCons(b: byte, high: nat)
    requires b >= 128 && high > 0
    ensures Leb(b % 128 + 128 * high) == [b] + Leb(high)
  {
    var v := b % 128 + 128 * high;
    assert v / 128 == high && v % 128 + 128 == b;
  }

  lemma {:induction false} DecodeCanonical(input: seq<byte>, n: nat)
    requires n < MAX_LEN && DecodeFrom(input, n).Ok?
    ensures var (v, used) := DecodeFrom(input, n).value;
            input[..used] == Leb(v) && v < Room(n) && (n > 0 ==> v > 0)
    decreases |input|
  {
    if input[0] >= 128 {
      DecodeCanonical(input[1..], n + 1);
      var (high, used) := DecodeFrom(input[1..], n + 1).value;
      assert input[..used + 1] == [input[0]] + input[1..][..used];
      LebCons(input[0], high);
      RoomUp(input[0] % 128, high, n);
    } else {
      assert input[..1] == [input[0]];
    }
  }

  /** Every value has one spelling: what decodes is what encoding writes. */
  lemma VarintCanonical(input: seq<byte>)
    requires DecodeSpec(input).Ok?
    ensures var (v, used) := DecodeSpec(input).value;
            v < U32 && input[..used] == Leb(v)
  {
    DecodeCanonical(input, 0);
  }

  /** Writes `v` at `out[at..]`. */
  method Encode(v: u32, out: array<byte>, at: nat) returns (r: Result<nat>)
    requires at <= out.Length
    modifies out
    ensures r == if at + |Leb(v)| <= out.Length then Ok(|Leb(v)|) else Err(BufferTooSmall)
    ensures out[..at] == old(out[..at])
    ensures r.Ok? ==> out[at..at + r.value] == Leb(v) && out[at + r.value..] == old(out[at + r.value..])
  {
    var value: nat := v;
    var n := 0;
    ghost var all := Leb(v);
    ghost var was := out[..];
    while true
      invariant n < |all| && at + n <= out.Length && all[n..] == Leb(value)
      invariant forall i :: 0 <= i < n ==> out[at + i] == all[i]
      invariant forall i :: 0 <= i < at || at + n <= i < out.Length ==> out[i] == was[i]
      decreases value
    {
      if at + n >= out.Length { return Err(BufferTooSmall); }
      assert all[n] == Leb(value)[0] && all[n + 1..] == Leb(value)[1..];
      var b := value % 128;
      value := value / 128;
      if value == 0 {
        out[at + n] := b;
        return Ok(n + 1);
      }
      out[at + n] := b + 128;
      n := n + 1;
    }
  }

  function Scale(n: nat): nat
    requires n <= MAX_LEN
  {
    if n == 0 then 1 else 128 * Scale(n - 1)
  }

  lemma ScaleValues()
    ensures Scale(0) == 1 && Scale(1) == 128 && Scale(2) == 0x4000 && Scale(3) == 0x20_0000
    ensures Scale(4) == 0x1000_0000 && Scale(5) == 0x8_0000_0000
  {
  }

  /** What is left to read, on top of `n` bytes worth `value`. */
  function Resumed(rest: Result<(nat, nat)>, value: nat, scale: nat, n: nat): Result<(nat, nat)> {
    if rest.Err? then rest else Ok((value + scale * rest.value.0, n + rest.value.1))
  }

  /** The reader as it runs: `value` gathered so far, the next byte worth `scale` times
      its payload, anything past 32 bits refused by the size of that product. */
  function Gather(input: seq<byte>, n: nat, value: nat, scale: nat): Result<(nat, nat)>
    decreases |input|
  {
    if input == [] || n >= MAX_LEN || input[0] % 128 * scale >= U32 then Err(BadHeader)
    else
      var now := value + input[0] % 128 * scale;
      if input[0] >= 128 then Gather(input[1..], n + 1, now, 128 * scale)
      else if n > 0 && input[0] == 0 then Err(BadHeader)
      else Ok((now, n + 1))
  }

  function Prepended(payload: nat, rest: Result<(nat, nat)>): Result<(nat, nat)> {
    if rest.Err? then rest else Ok((payload + 128 * rest.value.0, rest.value.1 + 1))
  }

  lemma Carried(rest: Result<(nat, nat)>, payload: nat, value: nat, scale: nat, n: nat)
    ensures Resumed(rest, value + payload * scale, 128 * scale, n + 1) ==
            Resumed(Prepended(payload, rest), value, scale, n)
  {
    if rest.Ok? {
      var high := rest.value.0;
      assert scale * (payload + 128 * high) == payload * scale + (128 * scale) * high;
    }
  }

  lemma {:induction false} GatherMeans(input: seq<byte>, n: nat, value: nat, scale: nat)
    requires n <= MAX_LEN && scale == Scale(n)
    ensures Gather(input, n, value, scale) == Resumed(DecodeFrom(input, n), value, scale, n)
    decreases |input|
  {
    if input != [] && n < MAX_LEN {
      var payload := input[0] % 128;
      OverflowIsFifth(payload, n);
      if input[0] >= 128 && payload * scale < U32 {
        GatherMeans(input[1..], n + 1, value + payload * scale, 128 * scale);
        Carried(DecodeFrom(input[1..], n + 1), payload, value, scale, n);
      }
    }
  }

  /** Reads a varint, gathering seven bits a byte. */
  method Decode(input: seq<byte>) returns (r: Result<(nat, nat)>)
    ensures r == DecodeSpec(input)
  {
    GatherMeans(input, 0, 0, 1);
    var value: nat := 0;
    var scale: nat := 1;
    var n := 0;
    assert input[0..] == input;
    while n < |input| && n < MAX_LEN
      invariant n <= |input| && n <= MAX_LEN
      invariant Gather(input, 0, 0, 1) == Gather(input[n..], n, value, scale)
    {
      var payload := input[n] % 128;
      if payload * scale >= U32 { return Err(BadHeader); }
      value := value + payload * scale;
      if input[n] < 128 {
        if n > 0 && input[n] == 0 { return Err(BadHeader); }
        return Ok((value, n + 1));
      }
      assert input[n..][1..] == input[n + 1..];
      scale := 128 * scale;
      n := n + 1;
    }
    return Err(BadHeader);
  }

  lemma OverflowIsFifth(payload: nat, n: nat)
    requires payload < 128 && n < MAX_LEN
    ensures payload * Scale(n) >= U32 <==> n == 4 && payload >= 16
  {
    ScaleValues();
    assert n == 0 || n == 1 || n == 2 || n == 3 || n == 4;
  }

}
