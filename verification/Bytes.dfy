/** Bytes, machine words, and the little-endian codec the journal's header uses. */
module Bytes {

  type byte = x: int | 0 <= x < 0x100
  type u32 = x: int | 0 <= x < 0x1_0000_0000
  type u64 = x: int | 0 <= x < 0x1_0000_0000_0000_0000

  datatype Option<+T> = None | Some(value: T)
  datatype Result<+T, +E> = Ok(value: T) | Err(error: E)

  /** The last element of a sequence, if there is one. */
  function LastOf<T>(s: seq<T>): Option<T> {
    if s == [] then None else Some(s[|s| - 1])
  }

  function Pow256(k: nat): (p: nat)
    ensures p >= 1
  {
    if k == 0 then 1 else 256 * Pow256(k - 1)
  }

  /** `n` in `width` little-endian bytes. */
  function Le(n: nat, width: nat): (r: seq<byte>)
    ensures |r| == width
  {
    if width == 0 then [] else [n % 256] + Le(n / 256, width - 1)
  }

  /** The number a little-endian byte string spells. */
  function LeNat(b: seq<byte>): nat {
    if |b| == 0 then 0 else b[0] + 256 * LeNat(b[1..])
  }

  lemma {:induction false} LeRoundTrip(n: nat, width: nat)
    requires n < Pow256(width)
    ensures LeNat(Le(n, width)) == n
  {
    if width != 0 {
      LeRoundTrip(n / 256, width - 1);
      assert Le(n, width)[1..] == Le(n / 256, width - 1);
    }
  }

  /** A four-byte little-endian number, spelled out. */
  lemma LeNat4(b: seq<byte>)
    requires |b| == 4
    ensures LeNat(b) == b[0] as int + 0x100 * b[1] as int + 0x1_0000 * b[2] as int + 0x100_0000 * b[3] as int
  {
    assert LeNat(b) == b[0] + 256 * LeNat(b[1..]);
    assert LeNat(b[1..]) == b[1] + 256 * LeNat(b[1..][1..]) && b[1..][1..] == b[2..];
    assert LeNat(b[2..]) == b[2] + 256 * LeNat(b[2..][1..]) && b[2..][1..] == b[3..];
    assert LeNat(b[3..]) == b[3] + 256 * LeNat(b[3..][1..]) && b[3..][1..] == [];
  }

  /** Bytes of an ASCII literal. */
  function Ascii(s: string): (r: seq<byte>)
    ensures |r| == |s|
  {
    seq(|s|, i requires 0 <= i < |s| => if s[i] as int < 0x100 then s[i] as int else 0x3F)
  }
}
