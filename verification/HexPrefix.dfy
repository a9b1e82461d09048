/** Keys as nibbles and their hex-prefix form: `monktrie/encoding.go` and `monktrie/slice.go`. */
module HexPrefix {
  import opened Bytes

  /** A key as nibbles 0..15; a complete key ends in the terminator 16. */
  type Nibbles = seq<nat>

  const TERMINATOR: nat := 16

  predicate IsPath(p: Nibbles) {
    forall i | 0 <= i < |p| :: p[i] < TERMINATOR
  }

  predicate IsKey(k: Nibbles) {
    && |k| > 0
    && k[|k| - 1] == TERMINATOR
    && forall i | 0 <= i < |k| - 1 :: k[i] < TERMINATOR
  }

  /** A part of a key that a two-item node can carry. */
  predicate IsPart(k: Nibbles) {
    IsKey(k) || (k != [] && IsPath(k))
  }

  // ---- Slices --------------------------------------------------------------------

  /** The number of leading nibbles on which `a` and `b` agree. */
  function Match(a: Nibbles, b: Nibbles): (n: nat)
    ensures n <= |a| && n <= |b| && a[..n] == b[..n]
    ensures n < |a| && n < |b| ==> a[n] != b[n]
  {
    if a == [] || b == [] || a[0] != b[0] then 0 else 1 + Match(a[1..], b[1..])
  }

  lemma MatchUnique(a: Nibbles, b: Nibbles, n: nat)
    requires n <= |a| && n <= |b| && a[..n] == b[..n]
    requires n < |a| && n < |b| ==> a[n] != b[n]
    ensures n == Match(a, b)
  {
  }

  method CompareIntSlice(a: Nibbles, b: Nibbles) returns (same: bool)
    ensures same <==> a == b
  {
    if |a| != |b| { return false; }
    for i := 0 to |a|
      invariant a[..i] == b[..i]
    {
      if a[i] != b[i] { return false; }
    }
    assert a[..|a|] == a && b[..|b|] == b;
    return true;
  }

  method MatchingNibbleLength(a: Nibbles, b: Nibbles) returns (i: nat)
    ensures i == Match(a, b)
  {
    var length := if |a| < |b| then |a| else |b|;
    i := 0;
    while i < length
      invariant i <= length && a[..i] == b[..i]
    {
      if a[i] != b[i] { break; }
      i := i + 1;
    }
    MatchUnique(a, b, i);
  }

  // ---- Nibbles and bytes ------------------------------------------------------------

  function Unpack(s: seq<byte>): (h: Nibbles)
    ensures |h| == 2 * |s| && IsPath(h)
  {
    if s == [] then [] else [s[0] / 16, s[0] % 16] + Unpack(s[1..])
  }

  /** Two nibbles to a byte, as far as they go in pairs. */
  function Pack(h: Nibbles): (s: seq<byte>)
    ensures |s| == |h| / 2
  {
    if |h| < 2 then [] else [(16 * h[0] + h[1]) % 256] + Pack(h[2..])
  }

  lemma {:induction false} PackPair(h: Nibbles)
    requires IsPath(h) && |h| >= 2
    ensures Pack(h) == [16 * h[0] + h[1]] + Pack(h[2..])
    ensures [h[0], h[1]] + h[2..] == h
  {
  }

  lemma {:induction false} UnpackByte(b: byte, s: seq<byte>)
    ensures Unpack([b] + s) == [b / 16, b % 16] + Unpack(s)
  {
    assert ([b] + s)[1..] == s;
  }

  lemma {:induction false} UnpackPack(h: Nibbles)
    requires IsPath(h) && |h| % 2 == 0
    ensures Unpack(Pack(h)) == h
  {
    if h != [] {
      PackPair(h);
      UnpackPack(h[2..]);
      UnpackByte(16 * h[0] + h[1], Pack(h[2..]));
    }
  }

  lemma {:induction false} PackUnpack(s: seq<byte>)
    ensures Pack(Unpack(s)) == s
  {
    if s != [] {
      PackUnpack(s[1..]);
      assert Unpack(s)[2..] == Unpack(s[1..]);
    }
  }

  // ---- The codec -----------------------------------------------------------------------

  /** `CompactHexDecode`: the nibbles of a string and the terminator. */
  function KeyOf(s: seq<byte>): (k: Nibbles)
    ensures IsKey(k) && |k| == 2 * |s| + 1
  {
    Unpack(s) + [TERMINATOR]
  }

  predicate Terminated(k: Nibbles) {
    k != [] && k[|k| - 1] == TERMINATOR
  }

  function Body(k: Nibbles): Nibbles {
    if Terminated(k) then k[..|k| - 1] else k
  }

  /** The flag nibble, padded to an even total, in front of the body. */
  function Flagged(k: Nibbles): Nibbles {
    var h, t := Body(k), if Terminated(k) then 2 else 0;
    if |h| % 2 == 1 then [t + 1] + h else [t, 0] + h
  }

  function CompactEncode(k: Nibbles): seq<byte>
    requires k != []
  {
    Pack(Flagged(k))
  }

  function Unflagged(h: Nibbles): Nibbles
    requires |h| >= 2
  {
    var base := if h[0] >= 2 then h + [TERMINATOR] else h;
    if h[0] % 2 == 1 then base[1..] else base[2..]
  }

  function CompactDecode(s: seq<byte>): Nibbles
    requires s != []
  {
    Unflagged(Unpack(s))
  }

  lemma FlagRoundTrip(k: Nibbles)
    requires IsPart(k)
    ensures IsPath(Flagged(k)) && |Flagged(k)| % 2 == 0 && |Flagged(k)| >= 2
    ensures Unflagged(Flagged(k)) == k
  {
    var b, f := Body(k), Flagged(k);
    if |b| % 2 == 1 {
      assert f[1..] == b && (f + [TERMINATOR])[1..] == b + [TERMINATOR];
    } else {
      assert f[2..] == b && (f + [TERMINATOR])[2..] == b + [TERMINATOR];
    }
  }

  /** Hex-prefix decoding undoes encoding, for every open or terminated key part. */
  lemma CompactRoundTrip(k: Nibbles)
    requires IsPart(k)
    ensures CompactEncode(k) != [] && CompactDecode(CompactEncode(k)) == k
  {
    FlagRoundTrip(k);
    UnpackPack(Flagged(k));
  }

  /** `DecodeCompact`: the terminator is skipped; an odd number of digits decodes to nothing. */
  function Digits(k: Nibbles): (h: Nibbles)
    ensures IsPath(h)
  {
    if k == [] then [] else (if k[0] < 16 then [k[0]] else []) + Digits(k[1..])
  }

  function DecodeCompact(k: Nibbles): seq<byte> {
    var h := Digits(k);
    if |h| % 2 == 1 then [] else Pack(h)
  }

  lemma {:induction false} DigitsOfPath(p: Nibbles, rest: Nibbles)
    requires IsPath(p)
    ensures Digits(p + rest) == p + Digits(rest)
  {
    if p == [] {
      assert p + rest == rest;
    } else {
      assert (p + rest)[1..] == p[1..] + rest;
      DigitsOfPath(p[1..], rest);
    }
  }

  lemma KeyRoundTrip(s: seq<byte>)
    ensures DecodeCompact(KeyOf(s)) == s
  {
    DigitsOfPath(Unpack(s), [TERMINATOR]);
    assert Digits([TERMINATOR]) == [];
    assert Unpack(s) + [] == Unpack(s);
    PackUnpack(s);
  }

  /** A complete key of whole bytes comes from exactly one string. */
  lemma KeyOfDecoded(k: Nibbles)
    requires IsKey(k) && |k| % 2 == 1
    ensures KeyOf(DecodeCompact(k)) == k
  {
    var p := k[..|k| - 1];
    assert k == p + [TERMINATOR];
    DigitsOfPath(p, [TERMINATOR]);
    assert Digits([TERMINATOR]) == [];
    assert p + [] == p;
    UnpackPack(p);
  }

  lemma KeyOfInjective(s: seq<byte>, t: seq<byte>)
    requires KeyOf(s) == KeyOf(t)
    ensures s == t
  {
    KeyRoundTrip(s);
    KeyRoundTrip(t);
  }

  // ---- The loops -------------------------------------------------------------------------

  method CompactEncodeLoop(hexSlice: Nibbles) returns (buff: seq<byte>)
    requires hexSlice != []
    ensures buff == CompactEncode(hexSlice)
  {
    var terminator := if hexSlice[|hexSlice| - 1] == 16 then 1 else 0;
    var h := if terminator == 1 then hexSlice[..|hexSlice| - 1] else hexSlice;
    var oddlen := |h| % 2;
    var flags := 2 * terminator + oddlen;
    h := if oddlen != 0 then [flags] + h else [flags, 0] + h;
    FlaggedIs(hexSlice, h);
    buff := PackLoop(h);
  }

  lemma {:induction false} FlaggedIs(k: Nibbles, f: Nibbles)
    requires k != []
    requires var terminator := if k[|k| - 1] == 16 then 1 else 0;
             var h := if terminator == 1 then k[..|k| - 1] else k;
             var flags := 2 * terminator + |h| % 2;
             f == if |h| % 2 != 0 then [flags] + h else [flags, 0] + h
    ensures f == Flagged(k) && |f| % 2 == 0
  {
  }

  lemma {:induction false} PackStep(h: Nibbles, i: nat, buff: seq<byte>)
    requires i + 1 < |h|
    ensures buff + Pack(h[i..]) == buff + [(16 * h[i] + h[i + 1]) % 256] + Pack(h[i + 2..])
  {
    assert h[i..][2..] == h[i + 2..];
    Bytes.Regroup(buff, [(16 * h[i] + h[i + 1]) % 256], Pack(h[i + 2..]));
  }

  method PackLoop(h: Nibbles) returns (buff: seq<byte>)
    requires |h| % 2 == 0
    ensures buff == Pack(h)
  {
    buff := [];
    var i := 0;
    while i < |h|
      invariant 0 <= i <= |h| && i % 2 == 0
      invariant Pack(h) == buff + Pack(h[i..])
    {
      PackStep(h, i, buff);
      buff := buff + [(16 * h[i] + h[i + 1]) % 256];
      i := i + 2;
    }
    assert buff + [] == buff;
  }

  lemma {:induction false} UnpackStep(str: seq<byte>, i: nat, hexSlice: Nibbles)
    requires i < |str|
    ensures hexSlice + Unpack(str[i..]) == hexSlice + [str[i] / 16, str[i] % 16] + Unpack(str[i + 1..])
  {
    assert str[i..][1..] == str[i + 1..];
  }

  method CompactHexDecode(str: seq<byte>) returns (hexSlice: Nibbles)
    ensures hexSlice == KeyOf(str)
  {
    hexSlice := [];
    ghost var whole := Unpack(str);
    for i := 0 to |str|
      invariant whole == hexSlice + Unpack(str[i..])
    {
      UnpackStep(str, i, hexSlice);
      hexSlice := hexSlice + [str[i] / 16, str[i] % 16];
    }
    assert hexSlice + [] == hexSlice;
    hexSlice := hexSlice + [16];
  }
}
