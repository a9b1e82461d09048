/** Encoding with the compression switch on: every string is compressed before it is
    encoded, and `recursiveDecompress0` undoes that after decoding. */
module CompressedRlp {
  import opened Bytes
  import opened Rlp
  import Z = ZeroRun

  /** What is encoded in place of a content. */
  function Squeezed(c: Content): Content {
    match c
    case S(s) => S(Z.Compress(s))
    case L(cs) => L(SqueezedAll(cs))
  }

  function SqueezedAll(cs: seq<Content>): (r: seq<Content>)
    ensures |r| == |cs|
    ensures forall i | 0 <= i < |cs| :: r[i] == Squeezed(cs[i])
  {
    if cs == [] then [] else [Squeezed(cs[0])] + SqueezedAll(cs[1..])
  }

  /** `Broken` is a panic of the decompressor. */
  datatype Restored<T> = Broken | Restored(value: T)

  /** `recursiveDecompress0`, which is only given what the decoder builds. */
  function Restore(x: Item): Restored<Item> {
    match x
    case Byte(_) => Restored(x)
    case Blob(s) =>
      (match Z.Decompress(s)
       case Panic => Broken
       case Expanded(d) => Restored(Blob(d)))
    case List(items) =>
      (match RestoreAll(items)
       case Broken => Broken
       case Restored(xs) => Restored(List(xs)))
    case _ => Broken
  }

  function RestoreAll(xs: seq<Item>): Restored<seq<Item>> {
    if xs == [] then Restored([])
    else match Restore(xs[0])
      case Broken => Broken
      case Restored(x) =>
        match RestoreAll(xs[1..])
        case Broken => Broken
        case Restored(rest) => Restored([x] + rest)
  }

  /** Every string survives compression. */
  predicate Intact(c: Content) {
    match c
    case S(s) => Z.Intact(s)
    case L(cs) => IntactAll(cs)
  }

  predicate IntactAll(cs: seq<Content>) {
    cs == [] || (Intact(cs[0]) && IntactAll(cs[1..]))
  }

  predicate Sized(c: Content) {
    match c
    case S(s) => |s| < TWO63
    case L(cs) => SizedAll(cs)
  }

  predicate SizedAll(cs: seq<Content>) {
    cs == [] || (Sized(cs[0]) && SizedAll(cs[1..]))
  }

  lemma {:induction false} SingleByte(s: seq<byte>)
    ensures |Z.Compress(s)| == 1 <==> |s| == 1
    ensures |s| == 1 ==> Z.Compress(s) == s
  {
    if |s| >= 1 {
      var k := if s[0] != 0 then 1 else Z.Run(s);
      if k < |s| && Z.Fresh(s[k..]) { Z.CompressFresh(s[k..]); }
      if k < |s| { NonEmpty(s[k..]); }
    }
  }

  lemma NonEmpty(s: seq<byte>)
    requires s != []
    ensures Z.Compress(s) != []
  {
  }

  lemma {:induction false} StringRestored(s: seq<byte>)
    requires |s| < TWO63
    ensures Restore(Decoded(S(Z.Compress(s)))) == if Z.Intact(s) then Restored(Decoded(S(s))) else Broken
  {
    SingleByte(s);
    Z.RoundTrip(s);
    if |s| == 1 && s[0] <= 0x7f && s[0] == 0 {
      assert s[1..] == [] && Z.Run(s) == 1;
    }
  }

  lemma {:induction false} AllRestored(cs: seq<Content>)
    requires SizedAll(cs)
    ensures RestoreAll(DecodedAll(SqueezedAll(cs))) == if IntactAll(cs) then Restored(DecodedAll(cs)) else Broken
    decreases cs, 0
  {
    if cs != [] {
      ContentRestored(cs[0]);
      AllRestored(cs[1..]);
      var xs := DecodedAll(SqueezedAll(cs));
      assert SqueezedAll(cs)[1..] == SqueezedAll(cs[1..]);
      assert xs[1..] == DecodedAll(SqueezedAll(cs[1..]));
    }
  }

  /** Compressing, encoding, decoding and decompressing gives what encoding and decoding
      alone would give, exactly when every string survives compression. */
  lemma {:induction false} ContentRestored(c: Content)
    requires Sized(c)
    ensures Restore(Decoded(Squeezed(c))) == if Intact(c) then Restored(Decoded(c)) else Broken
    decreases c, 1
  {
    match c
    case S(s) => StringRestored(s);
    case L(cs) => AllRestored(cs);
  }

  /** The whole way through the bytes: what was compressed and encoded is decoded, wherever it
      stands in a buffer, and decompressed to what it would be without compression. */
  lemma {:induction false} CompressedRoundTrip(c: Content, rest: seq<byte>)
    requires Sized(c) && Fits(Squeezed(c))
    ensures var e := EncodeContent(Squeezed(c));
            match Parse(e + rest)
            case Panic => false
            case Parsed(x, used) => used == |e| && Restore(x) == if Intact(c) then Restored(Decoded(c)) else Broken
  {
    ParseContent(Squeezed(c), rest);
    ContentRestored(c);
  }
}
