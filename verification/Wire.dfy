/** Little-endian integers and buffer writes. */
module Wire {
  import opened Bits

  type byte = u8

  /** `n` in `len` little-endian bytes. */
  function Le(n: nat, len: nat): (r: seq<byte>)
    ensures |r| == len
  {
    if len == 0 then [] else [n % 256] + Le(n / 256, len - 1)
  }

  function FromLe(s: seq<byte>): nat {
    if s == [] then 0 else s[0] + 256 * FromLe(s[1..])
  }

  function Pow256(n: nat): nat {
    if n == 0 then 1 else 256 * Pow256(n - 1)
  }

  lemma {:induction false} LeRoundTrip(n: nat, len: nat)
    requires n < Pow256(len)
    ensures FromLe(Le(n, len)) == n
  {
    if len > 0 {
      LeRoundTrip(n / 256, len - 1);
      assert Le(n, len)[1..] == Le(n / 256, len - 1);
    }
  }

  lemma LowByte(b: byte, n: nat)
    ensures (b + 256 * n) % 256 == b && (b + 256 * n) / 256 == n
  {
  }

  lemma {:induction false} FromLeRoundTrip(s: seq<byte>)
    ensures FromLe(s) < Pow256(|s|) && Le(FromLe(s), |s|) == s
  {
    if s != [] {
      FromLeRoundTrip(s[1..]);
      LowByte(s[0], FromLe(s[1..]));
      assert s == [s[0]] + s[1..];
    }
  }

  lemma Pow256Values()
    ensures Pow256(2) == U16 && Pow256(4) == U32 && Pow256(8) == U64
  {
    assert Pow256(3) == 0x100_0000;
    assert Pow256(5) == 0x100_0000_0000;
    assert Pow256(6) == 0x1_0000_0000_0000;
    assert Pow256(7) == 0x100_0000_0000_0000;
  }

  function Le16(n: u16): (r: seq<byte>)
    ensures |r| == 2 && FromLe(r) == n
  {
    Pow256Values(); LeRoundTrip(n, 2);
    Le(n, 2)
  }

  function Le32(n: u32): (r: seq<byte>)
    ensures |r| == 4 && FromLe(r) == n
  {
    Pow256Values(); LeRoundTrip(n, 4);
    Le(n, 4)
  }

  function Le64(n: u64): (r: seq<byte>)
    ensures |r| == 8 && FromLe(r) == n
  {
    Pow256Values(); LeRoundTrip(n, 8);
    Le(n, 8)
  }

  function Read16(s: seq<byte>): (n: u16)
    requires |s| == 2
    ensures Le16(n) == s
  {
    Pow256Values(); FromLeRoundTrip(s);
    FromLe(s)
  }

  function Read32(s: seq<byte>): (n: u32)
    requires |s| == 4
    ensures Le32(n) == s
  {
    Pow256Values(); FromLeRoundTrip(s);
    FromLe(s)
  }

  function Read64(s: seq<byte>): (n: u64)
    requires |s| == 8
    ensures Le64(n) == s
  {
    Pow256Values(); FromLeRoundTrip(s);
    FromLe(s)
  }

  function Zeros(n: nat): (r: seq<byte>)
    ensures |r| == n && forall i :: 0 <= i < n ==> r[i] == 0
  {
    seq(n, _ => 0)
  }

  /** `out[at..at + data.len()].copy_from_slice(data)`. */
  method CopyInto(out: array<byte>, at: nat, data: seq<byte>)
    requires at + |data| <= out.Length
    modifies out
    ensures out[..] == old(out[..at]) + data + old(out[at + |data|..])
  {
    ghost var was := out[..];
    for i := 0 to |data|
      invariant out[..] == was[..at] + data[..i] + was[at + i..]
    {
      out[at + i] := data[i];
    }
  }
}
