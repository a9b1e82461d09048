/** Byte strings and big-endian numbers, as `monkutil/bytes.go` and `math/big` use them. */
module Bytes {

  type byte = x: int | 0 <= x < 256

  const TWO63: nat := 0x8000_0000_0000_0000
  const TWO64: nat := 0x1_0000_0000_0000_0000

  function Zeros(n: nat): (z: seq<byte>)
    ensures |z| == n && forall i | 0 <= i < n :: z[i] == 0
  {
    seq(n, _ => 0)
  }

  /** The number a big-endian byte string stands for. */
  function FromBytes(b: seq<byte>): nat {
    if b == [] then 0 else 256 * FromBytes(b[..|b| - 1]) + b[|b| - 1]
  }

  /** `big.Int.Bytes`: the shortest big-endian string, empty for zero. */
  function BigBytes(n: nat): (b: seq<byte>) {
    if n == 0 then [] else BigBytes(n / 256) + [n % 256]
  }

  lemma {:induction false} BigBytesValue(n: nat)
    ensures FromBytes(BigBytes(n)) == n
    ensures BigBytes(n) != [] ==> BigBytes(n)[0] != 0
    ensures BigBytes(n) == [] <==> n == 0
  {
    if n != 0 {
      BigBytesValue(n / 256);
      var b := BigBytes(n);
      assert b[..|b| - 1] == BigBytes(n / 256);
    }
  }

  function Pow256(k: nat): (p: nat)
    ensures p > 0
  {
    if k == 0 then 1 else 256 * Pow256(k - 1)
  }

  lemma {:induction false} FromBytesBound(b: seq<byte>)
    ensures FromBytes(b) < Pow256(|b|)
  {
    if b != [] {
      FromBytesBound(b[..|b| - 1]);
    }
  }

  /** A number below 256^k needs at most k bytes. */
  lemma {:induction false} BigBytesLength(n: nat, k: nat)
    requires n < Pow256(k)
    ensures |BigBytes(n)| <= k
  {
    if n > 0 {
      BigBytesLength(n / 256, k - 1);
    }
  }

  lemma {:induction false} FromBytesZeros(n: nat, b: seq<byte>)
    ensures FromBytes(Zeros(n) + b) == FromBytes(b)
  {
    var z := Zeros(n) + b;
    if b != [] {
      assert z[..|z| - 1] == Zeros(n) + b[..|b| - 1];
      FromBytesZeros(n, b[..|b| - 1]);
    } else if n > 0 {
      assert z[..|z| - 1] == Zeros(n - 1) + b;
      FromBytesZeros(n - 1, b);
    }
  }

  /** `LeftPadBytes`: a string already longer than `l` comes back as it is. */
  function LeftPad(b: seq<byte>, l: nat): (p: seq<byte>)
    ensures FromBytes(p) == FromBytes(b)
    ensures |p| == if l < |b| then |b| else l
  {
    if l < |b| then b else FromBytesZeros(l - |b|, b); Zeros(l - |b|) + b
  }

  /** `binary.Read` of a `width`-byte big-endian number: too short a buffer reads as zero. */
  function ReadBig(b: seq<byte>, width: nat): nat {
    if |b| < width then 0 else FromBytes(b[..width])
  }

  /** The number in `len` bytes from `from` on. */
  function NumberAt(data: seq<byte>, from: nat, len: nat): nat
    requires from + len <= |data|
  {
    if len == 0 then 0 else 256 * NumberAt(data, from, len - 1) + data[from + len - 1]
  }

  lemma {:induction false} NumberAtIs(data: seq<byte>, from: nat, b: seq<byte>)
    requires from + |b| <= |data| && data[from..from + |b|] == b
    ensures NumberAt(data, from, |b|) == FromBytes(b)
  {
    if b != [] {
      var n := |b| - 1;
      assert data[from..from + n] == data[from..from + |b|][..n];
      NumberAtIs(data, from, b[..n]);
      assert data[from + n] == data[from..from + |b|][n];
    }
  }

  function ReadVarInt(b: seq<byte>): nat {
    if |b| > 4 then ReadBig(LeftPad(b, 8), 8)
    else if |b| > 2 then ReadBig(LeftPad(b, 4), 4)
    else if |b| > 1 then ReadBig(LeftPad(b, 2), 2)
    else ReadBig(b, 1)
  }

  /** Through all four buffer widths, a length of up to eight bytes reads as its number. */
  lemma ReadVarIntAt(data: seq<byte>, from: nat, len: nat)
    requires from + len <= |data| && len <= 8
    ensures ReadVarInt(data[from..from + len]) == NumberAt(data, from, len)
  {
    var b := data[from..from + len];
    NumberAtIs(data, from, b);
    var w := if |b| > 4 then 8 else if |b| > 2 then 4 else if |b| > 1 then 2 else |b|;
    var p := LeftPad(b, w);
    assert p[..w] == p;
    assert b[..|b|] == b;
  }

  lemma {:induction false} Regroup(a: seq<byte>, b: seq<byte>, c: seq<byte>)
    ensures a + b + c == a + (b + c)
  {
  }

  lemma {:induction false} Drop(a: seq<byte>, b: seq<byte>)
    ensures (a + b)[|a|..] == b && (a + b)[..|a|] == a
  {
  }
}
