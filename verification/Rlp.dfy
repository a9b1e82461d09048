/** The recursive length prefix codec of `monkutil/rlp.go`. */
module Rlp {
  import opened Bytes

  /** The Go values the encoder switches over; the decoder builds only `Byte`,
      `Blob` and `List`. `Int` is any signed or big integer, `Uint64` goes through
      a conversion to `int64`. */
  datatype Item =
    | Nil
    | Str(s: seq<byte>)
    | Blob(s: seq<byte>)
    | Byte(b: byte)
    | Int(n: int)
    | Uint64(u: nat)
    | List(items: seq<Item>)

  /** What an encoding stands for: a byte string or a list. */
  datatype Content = S(s: seq<byte>) | L(cs: seq<Content>)

  function Abs(n: int): nat {
    if n < 0 then -n else n
  }

  /** Go's conversion of a 64-bit unsigned number. */
  function ToInt64(u: nat): int {
    if u < TWO63 then u else u - TWO64
  }

  /** The content the encoder writes for a Go value. */
  function Wire(x: Item): Content {
    match x
    case Nil => L([])
    case Str(s) => S(s)
    case Blob(s) => S(s)
    case Byte(b) => S(BigBytes(b))
    case Int(n) => S(BigBytes(Abs(n)))
    case Uint64(u) => S(BigBytes(Abs(ToInt64(u))))
    case List(items) => L(WireAll(items))
  }

  function WireAll(xs: seq<Item>): (cs: seq<Content>)
    ensures |cs| == |xs|
    ensures forall i | 0 <= i < |xs| :: cs[i] == Wire(xs[i])
  {
    if xs == [] then [] else [Wire(xs[0])] + WireAll(xs[1..])
  }

  /** A length prefix; `short` is the code of length zero and `long` that of a length of no
      bytes. A length of 2^64 or more, which no Go slice has, gets a prefix of its own, so that
      encodings stay distinct without a bound on their size. */
  function Header(len: nat, short: byte, long: byte): (h: seq<byte>)
    requires short + 55 == long && long + 8 < 256
    ensures |h| > 0
  {
    if len < 56 then [short + len]
    else
      var l := BigBytes(len);
      if len < TWO64 then
        LengthBytes(len);
        [long + |l|] + l
      else [long + 8] + Zeros(8) + Ones(|l|) + [0] + l
  }

  function Ones(n: nat): (o: seq<byte>)
    ensures |o| == n && forall i | 0 <= i < n :: o[i] == 1
  {
    seq(n, _ => 1)
  }

  function EncodeString(s: seq<byte>): (e: seq<byte>)
    ensures |e| > 0
  {
    if |s| == 1 && s[0] <= 0x7f then s else Header(|s|, 0x80, 0xb7) + s
  }

  /** Only the string 00 is encoded as one zero byte. */
  lemma {:induction false} EncodedZero(s: seq<byte>)
    ensures EncodeString(s) == [0] ==> s == [0]
  {
    if !(|s| == 1 && s[0] <= 0x7f) { assert EncodeString(s)[0] == Header(|s|, 0x80, 0xb7)[0] >= 0x80; }
  }

  function EncodeContent(c: Content): (e: seq<byte>)
    ensures |e| > 0
  {
    match c
    case S(s) => EncodeString(s)
    case L(cs) => var p := EncodeContents(cs); Header(|p|, 0xc0, 0xf7) + p
  }

  function EncodeContents(cs: seq<Content>): (e: seq<byte>) {
    if cs == [] then [] else EncodeContent(cs[0]) + EncodeContents(cs[1..])
  }

  function Encode(x: Item): seq<byte> {
    EncodeContent(Wire(x))
  }

  // ---- The decoder -----------------------------------------------------------

  /** A value and the number of bytes it took; `Panic` is a slice or index out of range. */
  datatype Parsed<T> = Panic | Parsed(value: T, used: nat)

  /** The length a prefix announces, and the size of the prefix; a length of more than
      55 is the number in the next one to eight bytes (`Bytes.ReadVarIntAt`). */
  function Prefix(c: seq<byte>, short: byte, long: byte): (r: Parsed<nat>)
    requires c != [] && short <= c[0]
    ensures r.Parsed? ==> 0 < r.used <= |c|
  {
    if c[0] <= long then Parsed(c[0] - short, 1)
    else
      var l := c[0] - long;
      if 1 + l > |c| then Panic else Parsed(NumberAt(c, 1, l), 1 + l)
  }

  function Payload(c: seq<byte>, len: nat, start: nat): Parsed<Item>
    requires start <= |c|
  {
    if start + len > |c| then Panic else Parsed(Blob(c[start..][..len]), start + len)
  }

  function AsList(r: Parsed<seq<Item>>, start: nat): Parsed<Item> {
    match r
    case Panic => Panic
    case Parsed(items, used) => Parsed(List(items), start + used)
  }

  /** The item that starts a buffer. */
  function Parse(c: seq<byte>): (r: Parsed<Item>)
    ensures r.Parsed? ==> 0 < r.used <= |c|
    decreases |c|, 0
  {
    if c == [] then Panic
    else if c[0] <= 0x7f then Parsed(Byte(c[0]), 1)
    else if c[0] <= 0xbf then
      match Prefix(c, 0x80, 0xb7)
      case Panic => Panic
      case Parsed(len, start) => Payload(c, len, start)
    else
      match Prefix(c, 0xc0, 0xf7)
      case Panic => Panic
      case Parsed(len, start) => AsList(ParseItems(c[start..], len), start)
  }

  /** The list loop: items are read until `left` bytes are used up, or more. */
  function ParseItems(c: seq<byte>, left: int): (r: Parsed<seq<Item>>)
    ensures r.Parsed? ==> r.used <= |c|
    decreases |c|, 1
  {
    if left <= 0 then Parsed([], 0)
    else match Parse(c)
      case Panic => Panic
      case Parsed(x, n) =>
        match ParseItems(c[n..], left - n)
        case Panic => Panic
        case Parsed(xs, m) => Parsed([x] + xs, n + m)
  }

  // ---- Round trip --------------------------------------------------------------

  /** What the decoder builds for a content. */
  function Decoded(c: Content): Item {
    match c
    case S(s) => if |s| == 1 && s[0] <= 0x7f then Byte(s[0]) else Blob(s)
    case L(cs) => List(DecodedAll(cs))
  }

  function DecodedAll(cs: seq<Content>): (xs: seq<Item>)
    ensures |xs| == |cs|
    ensures forall i | 0 <= i < |cs| :: xs[i] == Decoded(cs[i])
  {
    if cs == [] then [] else [Decoded(cs[0])] + DecodedAll(cs[1..])
  }

  /** Every string and every list payload has a length a Go slice can have. */
  predicate Fits(c: Content) {
    match c
    case S(s) => |s| < TWO64
    case L(cs) => |EncodeContents(cs)| < TWO64 && FitsAll(cs)
  }

  predicate FitsAll(cs: seq<Content>) {
    cs == [] || (Fits(cs[0]) && FitsAll(cs[1..]))
  }

  lemma {:induction false} LengthBytes(len: nat)
    requires 56 <= len < TWO64
    ensures 1 <= |BigBytes(len)| <= 8 && FromBytes(BigBytes(len)) == len
  {
    BigBytesValue(len);
    assert Pow256(8) == TWO64;
    BigBytesLength(len, 8);
  }

  lemma {:induction false} LongHeader(len: nat, short: byte, long: byte)
    requires 56 <= len < TWO64 && short + 55 == long && long + 8 < 256
    ensures 1 <= |BigBytes(len)| <= 8 && FromBytes(BigBytes(len)) == len
    ensures Header(len, short, long) == [long + |BigBytes(len)|] + BigBytes(len)
  {
    LengthBytes(len);
  }

  lemma {:induction false} LongPrefix(b: seq<byte>, short: byte, long: byte, rest: seq<byte>)
    requires 1 <= |b| <= 8 && short <= long && long + 8 < 256
    ensures Prefix([long + |b|] + b + rest, short, long) == Parsed(FromBytes(b), 1 + |b|)
  {
    var c := [long + |b|] + b + rest;
    assert c[1..1 + |b|] == b;
    NumberAtIs(c, 1, b);
  }

  /** Reading a length prefix back. */
  lemma {:induction false} PrefixOf(len: nat, short: byte, long: byte, rest: seq<byte>)
    requires len < TWO64 && short + 55 == long && long + 8 < 256
    ensures var h := Header(len, short, long);
            short <= h[0] <= long + 8 && Prefix(h + rest, short, long) == Parsed(len, |h|)
  {
    if len >= 56 {
      LongHeader(len, short, long);
      LongPrefix(BigBytes(len), short, long, rest);
    }
  }

  lemma {:induction false} StringOf(h: seq<byte>, s: seq<byte>, rest: seq<byte>)
    requires h != [] && 0x80 <= h[0] <= 0xbf && Prefix(h + (s + rest), 0x80, 0xb7) == Parsed(|s|, |h|)
    ensures Parse(h + (s + rest)) == Parsed(Blob(s), |h| + |s|)
  {
    Drop(h, s + rest);
    Drop(s, rest);
  }

  lemma {:induction false} ParseString(s: seq<byte>, rest: seq<byte>)
    requires |s| < TWO64
    ensures Parse(EncodeString(s) + rest) == Parsed(Decoded(S(s)), |EncodeString(s)|)
  {
    if !(|s| == 1 && s[0] <= 0x7f) {
      var h := Header(|s|, 0x80, 0xb7);
      PrefixOf(|s|, 0x80, 0xb7, s + rest);
      StringOf(h, s, rest);
      Regroup(h, s, rest);
    }
  }

  lemma {:induction false} ListPayload(h: seq<byte>, len: nat, c: seq<byte>, items: seq<Item>)
    requires h != [] && 0xc0 <= h[0] && Prefix(h + c, 0xc0, 0xf7) == Parsed(len, |h|)
    requires ParseItems(c, len) == Parsed(items, len)
    ensures Parse(h + c) == Parsed(List(items), |h| + len)
  {
    Drop(h, c);
  }

  lemma {:induction false} ParseList(cs: seq<Content>, rest: seq<byte>)
    requires Fits(L(cs))
    ensures Parse(EncodeContent(L(cs)) + rest) == Parsed(Decoded(L(cs)), |EncodeContent(L(cs))|)
    decreases cs, 1
  {
    var p := EncodeContents(cs);
    var h := Header(|p|, 0xc0, 0xf7);
    PrefixOf(|p|, 0xc0, 0xf7, p + rest);
    ParseContents(cs, rest);
    ListPayload(h, |p|, p + rest, DecodedAll(cs));
    Regroup(h, p, rest);
  }

  lemma {:induction false} ItemsStep(e: seq<byte>, c: seq<byte>, x: Item, xs: seq<Item>, left: nat)
    requires e != [] && Parse(e + c) == Parsed(x, |e|) && ParseItems(c, left) == Parsed(xs, left)
    ensures ParseItems(e + c, |e| + left) == Parsed([x] + xs, |e| + left)
  {
    Drop(e, c);
  }

  /** The list loop consumes exactly the payload and returns its items in order. */
  lemma {:induction false} ParseContents(cs: seq<Content>, rest: seq<byte>)
    requires FitsAll(cs)
    ensures var p := EncodeContents(cs);
            ParseItems(p + rest, |p|) == Parsed(DecodedAll(cs), |p|)
    decreases cs, 0
  {
    if cs != [] {
      var e, p := EncodeContent(cs[0]), EncodeContents(cs[1..]);
      ParseContent(cs[0], p + rest);
      ParseContents(cs[1..], rest);
      ItemsJoin(e, p, rest, Decoded(cs[0]), DecodedAll(cs[1..]));
    }
  }

  lemma {:induction false} ItemsJoin(e: seq<byte>, p: seq<byte>, rest: seq<byte>, x: Item, xs: seq<Item>)
    requires e != [] && Parse(e + (p + rest)) == Parsed(x, |e|) && ParseItems(p + rest, |p|) == Parsed(xs, |p|)
    ensures ParseItems((e + p) + rest, |e + p|) == Parsed([x] + xs, |e + p|)
  {
    ItemsStep(e, p + rest, x, xs, |p|);
    Regroup(e, p, rest);
  }

  /** Decoding an encoding, whatever follows it, returns its item and its length. */
  lemma {:induction false} ParseContent(c: Content, rest: seq<byte>)
    requires Fits(c)
    ensures Parse(EncodeContent(c) + rest) == Parsed(Decoded(c), |EncodeContent(c)|)
    decreases c, 2
  {
    match c
    case S(s) => ParseString(s, rest);
    case L(cs) => ParseList(cs, rest);
  }

  /** `Decode(data, pos)`: the item at a position and the position after it. */
  function DecodeAt(data: seq<byte>, pos: nat): Parsed<Item> {
    if pos > |data| then Panic
    else match Parse(data[pos..])
      case Panic => Panic
      case Parsed(x, n) => Parsed(x, pos + n)
  }

  /** Decoding undoes encoding wherever the encoding sits in a larger buffer. */
  lemma RoundTrip(x: Item, before: seq<byte>, after: seq<byte>)
    requires Fits(Wire(x))
    ensures DecodeAt(before + Encode(x) + after, |before|) ==
            Parsed(Decoded(Wire(x)), |before + Encode(x)|)
  {
    assert (before + Encode(x) + after)[|before|..] == Encode(x) + after;
    ParseContent(Wire(x), after);
  }

  lemma {:induction false} DecodedInjective(c: Content, d: Content)
    requires Decoded(c) == Decoded(d)
    ensures c == d
  {
    match c
    case S(s) =>
    case L(cs) =>
      forall i | 0 <= i < |cs|
        ensures cs[i] == d.cs[i]
      {
        DecodedInjective(cs[i], d.cs[i]);
      }
      assert cs == d.cs;
  }

  // ---- Encodings are distinct -----------------------------------------------------

  /** What comes first in two equal concatenations of equal split is equal. */
  lemma {:induction false} SameFront(a: seq<byte>, x: seq<byte>, b: seq<byte>, y: seq<byte>)
    requires a + x == b + y && |a| == |b|
    ensures a == b && x == y
  {
    assert a == (a + x)[..|a|] && b == (b + y)[..|b|];
    assert x == (a + x)[|a|..] && y == (b + y)[|b|..];
  }

  lemma {:induction false} NumberUnique(n: nat, x: seq<byte>, m: nat, y: seq<byte>)
    requires BigBytes(n) + x == BigBytes(m) + y && |BigBytes(n)| == |BigBytes(m)|
    ensures n == m && x == y
  {
    SameFront(BigBytes(n), x, BigBytes(m), y);
    BigBytesValue(n);
    BigBytesValue(m);
  }

  lemma {:induction false} OnesUnique(p: nat, x: seq<byte>, q: nat, y: seq<byte>)
    requires Ones(p) + [0] + x == Ones(q) + [0] + y
    ensures p == q
  {
    var e, f := Ones(p) + [0] + x, Ones(q) + [0] + y;
    assert e[p] == 0 && f[q] == 0;
    assert forall i | 0 <= i < p :: e[i] == 1;
    assert forall i | 0 <= i < q :: f[i] == 1;
  }

  lemma {:induction false} HugeUnique(n: nat, x: seq<byte>, m: nat, y: seq<byte>, z: seq<byte>)
    requires z + Ones(|BigBytes(n)|) + [0] + BigBytes(n) + x == z + Ones(|BigBytes(m)|) + [0] + BigBytes(m) + y
    ensures n == m && x == y
  {
    var p, q := |BigBytes(n)|, |BigBytes(m)|;
    var a, b := BigBytes(n) + x, BigBytes(m) + y;
    assert z + Ones(p) + [0] + BigBytes(n) + x == z + (Ones(p) + [0] + a);
    assert z + Ones(q) + [0] + BigBytes(m) + y == z + (Ones(q) + [0] + b);
    SameFront(z, Ones(p) + [0] + a, z, Ones(q) + [0] + b);
    OnesUnique(p, a, q, b);
    SameFront(Ones(p) + [0], a, Ones(q) + [0], b);
    NumberUnique(n, x, m, y);
  }

  lemma {:induction false} LongUnique(n: nat, x: seq<byte>, m: nat, y: seq<byte>, long: byte)
    requires 56 <= n < TWO64 && 56 <= m < TWO64 && long + 8 < 256
    requires |BigBytes(n)| <= 8 && |BigBytes(m)| <= 8
    requires [long + |BigBytes(n)|] + BigBytes(n) + x == [long + |BigBytes(m)|] + BigBytes(m) + y
    ensures n == m && x == y
  {
    var a, b := [long + |BigBytes(n)|], [long + |BigBytes(m)|];
    Regroup(a, BigBytes(n), x);
    Regroup(b, BigBytes(m), y);
    SameFront(a, BigBytes(n) + x, b, BigBytes(m) + y);
    assert a[0] == b[0];
    NumberUnique(n, x, m, y);
  }

  /** A prefix in its three forms, which its start tells apart. */
  predicate Form(e: seq<byte>, len: nat, short: byte, long: byte) {
    && |e| > 0
    && (len < 56 ==> e[0] == short + len)
    && (len >= 56 ==> |e| > 1 && long < e[0] <= long + 8 && (e[1] == 0 <==> len >= TWO64))
  }

  lemma {:induction false} LongForm(l: seq<byte>, long: byte, x: seq<byte>)
    requires 1 <= |l| <= 8 && l[0] != 0 && long + 8 < 256
    ensures var e := [long + |l|] + l + x; |e| > 1 && long < e[0] <= long + 8 && e[1] != 0
  {
  }

  lemma {:induction false} HugeForm(n: nat, l: seq<byte>, long: byte, x: seq<byte>)
    requires long + 8 < 256
    ensures var e := [long + 8] + Zeros(8) + Ones(n) + [0] + l + x; |e| > 1 && e[0] == long + 8 && e[1] == 0
  {
    var e := [long + 8] + Zeros(8) + Ones(n) + [0] + l + x;
    assert e[1] == Zeros(8)[0];
  }

  lemma {:induction false} HeaderForm(len: nat, short: byte, long: byte, x: seq<byte>)
    requires short + 55 == long && long + 8 < 256
    ensures Form(Header(len, short, long) + x, len, short, long)
  {
    if 56 <= len < TWO64 {
      LengthBytes(len);
      BigBytesValue(len);
      LongForm(BigBytes(len), long, x);
    } else if len >= TWO64 {
      HugeForm(|BigBytes(len)|, BigBytes(len), long, x);
    }
  }

  /** A prefix can be told from what follows it. */
  lemma {:induction false} HeaderUnique(n: nat, x: seq<byte>, m: nat, y: seq<byte>, short: byte, long: byte)
    requires short + 55 == long && long + 8 < 256
    requires Header(n, short, long) + x == Header(m, short, long) + y
    ensures n == m && x == y
  {
    HeaderForm(n, short, long, x);
    HeaderForm(m, short, long, y);
    if n < 56 {
      SameFront([short + n], x, [short + m], y);
    } else if n < TWO64 {
      LongHeader(n, short, long);
      LongHeader(m, short, long);
      LongUnique(n, x, m, y, long);
    } else {
      HugeUnique(n, x, m, y, [long + 8] + Zeros(8));
    }
  }

  lemma {:induction false} StringUnique(s: seq<byte>, x: seq<byte>, t: seq<byte>, y: seq<byte>)
    requires EncodeString(s) + x == EncodeString(t) + y
    ensures s == t && x == y
  {
    StringForm(s, x);
    StringForm(t, y);
    if |s| == 1 && s[0] <= 0x7f {
      SameFront(s, x, t, y);
    } else {
      Regroup(Header(|s|, 0x80, 0xb7), s, x);
      Regroup(Header(|t|, 0x80, 0xb7), t, y);
      HeaderUnique(|s|, s + x, |t|, t + y, 0x80, 0xb7);
      SameFront(s, x, t, y);
    }
  }

  /** The first byte tells a byte of its own, a longer string and a list apart. */
  lemma {:induction false} StringForm(s: seq<byte>, x: seq<byte>)
    ensures var e := EncodeString(s) + x;
            |e| > 0 && e[0] < 0xc0 && (e[0] <= 0x7f <==> |s| == 1 && s[0] <= 0x7f)
  {
    HeaderForm(|s|, 0x80, 0xb7, s + x);
    Regroup(Header(|s|, 0x80, 0xb7), s, x);
  }

  lemma {:induction false} ListForm(cs: seq<Content>, x: seq<byte>)
    ensures (EncodeContent(L(cs)) + x)[0] >= 0xc0
  {
    var p := EncodeContents(cs);
    HeaderForm(|p|, 0xc0, 0xf7, p + x);
    Regroup(Header(|p|, 0xc0, 0xf7), p, x);
  }

  /** Encodings that start the same buffer are of the same content. */
  lemma {:induction false} Readable(c: Content, x: seq<byte>, d: Content, y: seq<byte>)
    requires EncodeContent(c) + x == EncodeContent(d) + y
    ensures c == d && x == y
    decreases c, 1
  {
    match (c, d)
    case (S(s), S(t)) => StringUnique(s, x, t, y);
    case (S(s), L(ds)) => StringForm(s, x); ListForm(ds, y);
    case (L(cs), S(t)) => StringForm(t, y); ListForm(cs, x);
    case (L(cs), L(ds)) =>
      var p, q := EncodeContents(cs), EncodeContents(ds);
      Regroup(Header(|p|, 0xc0, 0xf7), p, x);
      Regroup(Header(|q|, 0xc0, 0xf7), q, y);
      HeaderUnique(|p|, p + x, |q|, q + y, 0xc0, 0xf7);
      SameFront(p, x, q, y);
      ReadableAll(cs, ds);
  }

  lemma {:induction false} ReadableAll(cs: seq<Content>, ds: seq<Content>)
    requires EncodeContents(cs) == EncodeContents(ds)
    ensures cs == ds
    decreases cs, 0
  {
    if cs != [] && ds != [] {
      Readable(cs[0], EncodeContents(cs[1..]), ds[0], EncodeContents(ds[1..]));
      ReadableAll(cs[1..], ds[1..]);
      assert cs == [cs[0]] + cs[1..] && ds == [ds[0]] + ds[1..];
    }
  }

  /** No two contents share an encoding, and no encoding is a prefix of another. */
  lemma EncodingPrefixFree(c: Content, d: Content)
    requires EncodeContent(c) <= EncodeContent(d)
    ensures c == d
  {
    var e, f := EncodeContent(c), EncodeContent(d);
    assert e + f[|e|..] == f + [];
    Readable(c, f[|e|..], d, []);
  }

  /** An unsigned integer survives the trip through `int64` exactly up to 2^63. */
  lemma Uint64Kept(u: nat)
    requires u < TWO64
    ensures FromBytes(Wire(Uint64(u)).s) == u <==> u <= TWO63
  {
    var w := Abs(ToInt64(u));
    BigBytesValue(w);
  }

  /** The one-byte string 00 occurs in the content. */
  predicate HasZeroByte(c: Content) {
    match c
    case S(s) => s == [0]
    case L(cs) => exists i | 0 <= i < |cs| :: HasZeroByte(cs[i])
  }

  /** Encoding what was decoded gives the same content back exactly when the
      one-byte string 00 does not occur: it decodes to the byte 0, which encodes
      like the empty string. */
  lemma {:induction false} Reencoded(c: Content)
    ensures Wire(Decoded(c)) == c <==> !HasZeroByte(c)
  {
    match c
    case S(s) =>
      if |s| == 1 && s[0] <= 0x7f {
        OneByte(s[0]);
      }
    case L(cs) =>
      forall i | 0 <= i < |cs|
        ensures Wire(Decoded(cs[i])) == cs[i] <==> !HasZeroByte(cs[i])
      {
        Reencoded(cs[i]);
      }
      var ds := WireAll(DecodedAll(cs));
      assert ds == cs <==> forall i | 0 <= i < |cs| :: ds[i] == cs[i];
  }

  lemma OneByte(b: byte)
    ensures BigBytes(b) == if b == 0 then [] else [b]
  {
    if b != 0 {
      assert BigBytes(b / 256) == [];
    }
  }

  // ---- The same functions as loops -----------------------------------------------

  /** `_Encode`: a list's items are written one by one into a buffer of their own. */
  method EncodeItem(x: Item) returns (buff: seq<byte>)
    ensures buff == Encode(x)
    decreases x
  {
    match x {
      case List(items) =>
        var b: seq<byte> := [];
        for i := 0 to |items|
          invariant b == EncodeContents(WireAll(items[..i]))
        {
          var e := EncodeItem(items[i]);
          EncodeSnoc(items[..i], items[i]);
          assert items[..i + 1] == items[..i] + [items[i]];
          b := b + e;
        }
        assert items[..|items|] == items;
        buff := Header(|b|, 0xc0, 0xf7) + b;
      case _ =>
        buff := EncodeContent(Wire(x));
    }
  }

  lemma {:induction false} EncodeSnoc(xs: seq<Item>, x: Item)
    ensures EncodeContents(WireAll(xs + [x])) == EncodeContents(WireAll(xs)) + Encode(x)
  {
    var ys := xs + [x];
    if xs == [] {
      assert WireAll(ys) == [Wire(x)];
      assert EncodeContents([Wire(x)]) == EncodeContent(Wire(x)) + EncodeContents([]);
    } else {
      EncodeSnoc(xs[1..], x);
      assert ys[1..] == xs[1..] + [x];
      assert WireAll(ys)[1..] == WireAll(ys[1..]) && WireAll(xs)[1..] == WireAll(xs[1..]);
    }
  }

  /** `_Decode`, on what is left of the buffer from the position on. */
  method ParseLoop(c: seq<byte>) returns (r: Parsed<Item>)
    ensures r == Parse(c)
    decreases |c|, 0
  {
    if c == [] { return Panic; }
    if c[0] <= 0x7f { return Parsed(Byte(c[0]), 1); }
    if c[0] <= 0xbf {
      match Prefix(c, 0x80, 0xb7) {
        case Panic => return Panic;
        case Parsed(len, start) => return Payload(c, len, start);
      }
    }
    match Prefix(c, 0xc0, 0xf7) {
      case Panic => return Panic;
      case Parsed(len, start) =>
        var items := ItemsLoop(c[start..], len);
        return AsList(items, start);
    }
  }

  /** Its list loop: the buffer shrinks as items are appended. */
  method ItemsLoop(c: seq<byte>, len: nat) returns (r: Parsed<seq<Item>>)
    ensures r == ParseItems(c, len)
    decreases |c|, 1
  {
    var i: nat, rest, slice: seq<Item> := 0, c, [];
    ghost var whole := ParseItems(c, len);
    AppendNothing(whole);
    while i < len
      invariant |rest| <= |c| && Halfway(whole, slice, i, rest, len)
      decreases |rest|
    {
      NextItem(whole, slice, i, rest, len);
      var obj := ParseLoop(rest);
      if obj.Panic? { return Panic; }
      slice := slice + [obj.value];
      i, rest := i + obj.used, rest[obj.used..];
    }
    assert slice + [] == slice;
    return Parsed(slice, i);
  }

  /** The result is what there is so far and what the rest gives. */
  ghost predicate Halfway(whole: Parsed<seq<Item>>, slice: seq<Item>, i: nat, rest: seq<byte>, len: nat) {
    whole == Append(slice, i, ParseItems(rest, len - i))
  }

  /** One turn of the loop. */
  lemma {:induction false} NextItem(whole: Parsed<seq<Item>>, slice: seq<Item>, i: nat, rest: seq<byte>, len: nat)
    requires i < len && Halfway(whole, slice, i, rest, len)
    ensures match Parse(rest)
            case Panic => whole == Panic
            case Parsed(x, n) => Halfway(whole, slice + [x], i + n, rest[n..], len)
  {
    FirstItem(rest, len - i);
    if Parse(rest).Parsed? {
      var Parsed(x, n) := Parse(rest);
      AppendItem(slice, i, x, n, ParseItems(rest[n..], len - i - n));
    }
  }

  lemma {:induction false} FirstItem(c: seq<byte>, left: nat)
    requires left > 0
    ensures match Parse(c)
            case Panic => ParseItems(c, left).Panic?
            case Parsed(x, n) => ParseItems(c, left) == Append([x], n, ParseItems(c[n..], left - n))
  {
  }

  ghost function Append(xs: seq<Item>, used: nat, r: Parsed<seq<Item>>): Parsed<seq<Item>> {
    match r
    case Panic => Panic
    case Parsed(ys, n) => Parsed(xs + ys, used + n)
  }

  lemma AppendNothing(r: Parsed<seq<Item>>)
    ensures Append([], 0, r) == r
  {
    if r.Parsed? { assert [] + r.value == r.value; }
  }

  lemma AppendItem(xs: seq<Item>, used: nat, x: Item, n: nat, r: Parsed<seq<Item>>)
    ensures Append(xs + [x], used + n, r) == Append(xs, used, Append([x], n, r))
  {
    if r.Parsed? {
      assert xs + [x] + r.value == xs + ([x] + r.value);
    }
  }
}
