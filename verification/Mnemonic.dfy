/** `monkcrypto/mnemonic.go`: a private key of 64 hexadecimal digits as 24 words. The
    word list is a parameter; the one of the source has 1626 words, all different. */
module Mnemonic {

  type Word = string

  /** The length of the word list. */
  const N: nat := 1626

  predicate IsWordList(words: seq<Word>) {
    |words| == N && forall i, j | 0 <= i < j < |words| :: words[i] != words[j]
  }

  // ---- Hexadecimal numbers ---------------------------------------------------------

  predicate IsHex(c: char) {
    '0' <= c <= '9' || 'a' <= c <= 'f' || 'A' <= c <= 'F'
  }

  predicate AllHex(s: string) {
    forall i | 0 <= i < |s| :: IsHex(s[i])
  }

  function Digit(c: char): (d: nat)
    requires IsHex(c)
    ensures d < 16
  {
    if c <= '9' then (c - '0') as int else if c <= 'F' then (c - 'A') as int + 10 else (c - 'a') as int + 10
  }

  function HexChar(d: nat): (c: char)
    requires d < 16
    ensures IsHex(c) && Digit(c) == d
  {
    if d < 10 then '0' + d as char else 'a' + (d - 10) as char
  }

  function Pow16(k: nat): nat {
    if k == 0 then 1 else 16 * Pow16(k - 1)
  }

  /** The value of digits. */
  function ParseHex(s: string): nat
    requires AllHex(s)
  {
    if s == [] then 0 else 16 * ParseHex(s[..|s| - 1]) + Digit(s[|s| - 1])
  }

  predicate Signed(s: string) {
    s != [] && (s[0] == '+' || s[0] == '-')
  }

  function Unsigned(s: string): string {
    if Signed(s) then s[1..] else s
  }

  /** `ParseInt(x, 16, 64)` for at most 16 characters, with its error ignored: what is not a
      number is zero. */
  function ParseInt(s: string): int {
    var x := Unsigned(s);
    if x == [] || !AllHex(x) then 0 else if s[0] == '-' then 0 - ParseHex(x) else ParseHex(x)
  }

  /** `Sprintf("%0kx", n)` for a number of at most `k` digits. */
  function FormatHex(n: nat, k: nat): (s: string)
    ensures |s| == k && AllHex(s)
  {
    if k == 0 then [] else FormatHex(n / 16, k - 1) + [HexChar(n % 16)]
  }

  lemma {:induction false} ParseBound(s: string)
    requires AllHex(s)
    ensures ParseHex(s) < Pow16(|s|)
  {
    if s != [] { ParseBound(s[..|s| - 1]); }
  }

  /** The same digits in lower case. */
  function Lower(s: string): (r: string)
    requires AllHex(s)
    ensures |r| == |s|
  {
    seq(|s|, i requires 0 <= i < |s| => HexChar(Digit(s[i])))
  }

  lemma {:induction false} FormatParse(s: string)
    requires AllHex(s)
    ensures FormatHex(ParseHex(s), |s|) == Lower(s)
  {
    if s != [] {
      var n := |s| - 1;
      FormatParse(s[..n]);
      var v := ParseHex(s);
      assert v / 16 == ParseHex(s[..n]) && v % 16 == Digit(s[n]);
    }
  }

  /** Digits are their own lower case exactly if none is a capital. */
  lemma {:induction false} LowerSame(s: string)
    requires AllHex(s)
    ensures Lower(s) == s <==> forall i | 0 <= i < |s| :: !('A' <= s[i] <= 'F')
  {
    forall i | 0 <= i < |s| ensures Lower(s)[i] == s[i] <==> !('A' <= s[i] <= 'F') {}
  }

  /** The number of digits of `n`, at least one. */
  function Digits(n: nat): nat {
    if n < 16 then 1 else 1 + Digits(n / 16)
  }

  /** `Sprintf("%08x", x)`. */
  function Hex08(x: int): string {
    if x < 0 then "-" + FormatHex(-x, if Digits(-x) < 7 then 7 else Digits(-x))
    else FormatHex(x, if Digits(x) < 8 then 8 else Digits(x))
  }

  lemma {:induction false} DigitsBound(n: nat, k: nat)
    requires 0 < k && n < Pow16(k)
    ensures Digits(n) <= k
  {
    if n >= 16 { DigitsBound(n / 16, k - 1); }
  }

  lemma {:induction false} HexBack(x: string)
    requires AllHex(x) && |x| == 8
    ensures Hex08(ParseHex(x)) == Lower(x)
  {
    ParseBound(x);
    DigitsBound(ParseHex(x), 8);
    FormatParse(x);
  }

  // ---- Three words for a number ------------------------------------------------------

  /** Go's quotient is rounded toward zero, and its remainder keeps the sign of the dividend. */
  function GoDiv(a: int): int {
    if a >= 0 then a / N else -((-a) / N)
  }

  function GoMod(a: int): int {
    if a >= 0 then a % N else -((-a) % N)
  }

  /** The indices of the three words. */
  function Split(bit: int): (w: (int, int, int))
    ensures w.0 < N && w.1 < N && w.2 < N
    ensures bit >= 0 ==> w.0 >= 0 && w.1 >= 0 && w.2 >= 0
  {
    var w1 := GoMod(bit);
    var w2 := GoMod(GoDiv(bit) + w1);
    var w3 := GoMod(GoDiv(GoDiv(bit)) + w2);
    (w1, w2, w3)
  }

  /** A negative number has a negative index. */
  lemma {:induction false} SplitNegative(bit: int)
    requires -(N * N * N) < bit < 0
    ensures var (w1, w2, w3) := Split(bit); w1 < 0 || w2 < 0 || w3 < 0
  {
    var k := -bit;
    var q := k / N;
    assert GoDiv(bit) == -q && GoMod(bit) == -(k % N);
    if k % N == 0 {
      assert k == N * q;
      assert GoDiv(-q) == -(q / N);
      if q % N == 0 { assert q / N < N; }
    }
  }

  function Join(w1: int, w2: int, w3: int): int {
    var y, z := GoMod(w2 - w1), GoMod(w3 - w2);
    w1 + N * Wrapped(y) + N * N * Wrapped(z)
  }

  function Wrapped(d: int): int {
    if d < 0 then d + N else d
  }

  /** The step between two indices is recovered, whatever the sign of their difference. */
  lemma StepBack(a: nat, q: nat)
    requires a < N
    ensures Wrapped(GoMod((q + a) % N - a)) == q % N
  {
  }

  /** Below N^3 the three indices give the number back. */
  lemma {:induction false} JoinSplit(bit: nat)
    requires bit < N * N * N
    ensures var (w1, w2, w3) := Split(bit); Join(w1, w2, w3) == bit
  {
    var q, p := bit / N, bit / N / N;
    SplitOf(bit);
    var (w1, w2, w3) := Split(bit);
    StepBack(w1, q);
    StepBack(w2, p);
    ThreeDigits(bit, q, p);
  }

  lemma {:induction false} SplitOf(bit: nat)
    ensures var w1 := bit % N;
            var w2 := (bit / N + w1) % N;
            Split(bit) == (w1, w2, (bit / N / N + w2) % N)
  {
  }

  lemma ThreeDigits(bit: nat, q: nat, p: nat)
    requires bit < N * N * N && q == bit / N && p == q / N
    ensures p % N == p && bit % N + N * (q % N) + N * N * p == bit
  {
  }

  // ---- Words ------------------------------------------------------------------------------

  /** `IndexOf`: the first place of the word, or -1 if it is not there. */
  function Place(words: seq<Word>, value: Word): (i: int)
    ensures -1 <= i < |words|
    ensures i >= 0 ==> words[i] == value && forall p | 0 <= p < i :: words[p] != value
    ensures i == -1 ==> value !in words
  {
    if words == [] then -1
    else if words[0] == value then 0
    else
      var i := Place(words[1..], value);
      if i == -1 then -1 else i + 1
  }

  method IndexOf(words: seq<Word>, value: Word) returns (i: int)
    ensures i == Place(words, value)
    ensures i == -1 <==> value !in words
    ensures i != -1 ==> 0 <= i < |words| && words[i] == value && forall p | 0 <= p < i :: words[p] != value
  {
    for p := 0 to |words|
      invariant forall q | 0 <= q < p :: words[q] != value
    {
      if words[p] == value { return p; }
    }
    return -1;
  }

  lemma PlaceFound(words: seq<Word>, i: nat)
    requires IsWordList(words) && i < |words|
    ensures Place(words, words[i]) == i
  {
  }

  datatype Option<T> = None | Some(value: T)

  /** The three words for eight characters, nothing if an index is negative, which panics; and
      the digits for three words. */
  function EncodeChunk(words: seq<Word>, x: string): (r: Option<seq<Word>>)
    requires |words| == N
    ensures r.Some? ==> |r.value| == 3
  {
    var (w1, w2, w3) := Split(ParseInt(x));
    if w1 < 0 || w2 < 0 || w3 < 0 then None else Some([words[w1], words[w2], words[w3]])
  }

  function ChunkNumber(words: seq<Word>, a: Word, b: Word, c: Word): int {
    Join(Place(words, a), Place(words, b), Place(words, c))
  }

  /** Eight characters have no words exactly if they are a negative number. */
  lemma {:induction false} ChunkDefined(words: seq<Word>, x: string)
    requires |words| == N && |x| <= 8
    ensures EncodeChunk(words, x).None? <==> ParseInt(x) < 0
  {
    if ParseInt(x) < 0 {
      ParseBound(x[1..]);
      ShortPow(|x| - 1);
      SplitNegative(ParseInt(x));
    }
  }

  lemma {:induction false} ShortPow(k: nat)
    requires k <= 8
    ensures Pow16(k) <= 0x1_0000_0000
  {
    if k < 8 { PowGrows(k, 8); }
    assert Pow16(8) == 0x1_0000_0000;
  }

  lemma {:induction false} PowGrows(k: nat, n: nat)
    requires k <= n
    ensures Pow16(k) <= Pow16(n)
    decreases n
  {
    if k < n { PowGrows(k, n - 1); }
  }

  lemma {:induction false} ParsePlain(x: string)
    requires AllHex(x) && x != []
    ensures ParseInt(x) == ParseHex(x)
  {
    assert IsHex(x[0]) && !Signed(x);
  }

  lemma {:induction false} ChunkRoundTrip(words: seq<Word>, x: string)
    requires IsWordList(words) && AllHex(x) && |x| == 8
    ensures var r := EncodeChunk(words, x);
            r.Some? && ChunkNumber(words, r.value[0], r.value[1], r.value[2]) == ParseHex(x)
  {
    ParsePlain(x);
    ParseBound(x);
    ShortPow(8);
    var (w1, w2, w3) := Split(ParseHex(x));
    PlaceFound(words, w1);
    PlaceFound(words, w2);
    PlaceFound(words, w3);
    JoinSplit(ParseHex(x));
  }

  // ---- The whole key -------------------------------------------------------------------------

  /** What is made of eight characters, and of three words. */
  type Coder = string -> Option<seq<Word>>
  type Reader = (Word, Word, Word) -> string

  function CoderOf(words: seq<Word>): Coder
    requires |words| == N
  {
    (x: string) => EncodeChunk(words, x)
  }

  function ReaderOf(words: seq<Word>): Reader {
    (a: Word, b: Word, c: Word) => Hex08(ChunkNumber(words, a, b, c))
  }

  /** The words of the characters from `i` on, eight every `step`: nothing if a slice leaves the
      message or has no words, which panics. */
  function EncodeFrom(f: Coder, message: string, step: nat, i: nat): Option<seq<Word>>
    decreases |message| - i
  {
    if i >= |message| then Some([])
    else if i + 8 > |message| || step == 0 then None
    else Both(f(message[i..i + 8]), EncodeFrom(f, message, step, i + step))
  }

  function Both(a: Option<seq<Word>>, b: Option<seq<Word>>): Option<seq<Word>> {
    if a.Some? && b.Some? then Some(a.value + b.value) else None
  }

  function EncodeKey(words: seq<Word>, message: string): Option<seq<Word>>
    requires |words| == N
  {
    EncodeFrom(CoderOf(words), message, |message| / 8, 0)
  }

  lemma BothGroup(a: seq<Word>, b: seq<Word>, r: Option<seq<Word>>)
    ensures Both(Some(a), Both(Some(b), r)) == Both(Some(a + b), r)
  {
    if r.Some? { assert a + (b + r.value) == (a + b) + r.value; }
  }

  lemma BothEnds(r: Option<seq<Word>>, a: seq<Word>)
    ensures Both(Some([]), r) == r && Both(Some(a), Some([])) == Some(a)
  {
    if r.Some? { assert [] + r.value == r.value; }
    assert a + [] == a;
  }

  /** What is written out, and what is still to come, are the whole. */
  ghost predicate Encoding(f: Coder, message: string, step: nat, i: nat, out: seq<Word>) {
    Both(Some(out), EncodeFrom(f, message, step, i)) == EncodeFrom(f, message, step, 0)
  }

  lemma {:induction false} EncodeStarts(f: Coder, message: string, step: nat)
    ensures Encoding(f, message, step, 0, [])
  {
    BothEnds(EncodeFrom(f, message, step, 0), []);
  }

  lemma {:induction false} EncodeEnds(f: Coder, message: string, step: nat, i: nat, out: seq<Word>)
    requires Encoding(f, message, step, i, out) && i >= |message|
    ensures EncodeFrom(f, message, step, 0) == Some(out)
  {
    BothEnds(None, out);
  }

  lemma {:induction false} EncodeStep(f: Coder, message: string, step: nat, i: nat, out: seq<Word>, chunk: seq<Word>)
    requires Encoding(f, message, step, i, out) && i + 8 <= |message| && step > 0 && f(message[i..i + 8]) == Some(chunk)
    ensures Encoding(f, message, step, i + step, out + chunk)
  {
    BothGroup(out, chunk, EncodeFrom(f, message, step, i + step));
  }

  lemma {:induction false} EncodeStops(f: Coder, message: string, step: nat, i: nat, out: seq<Word>)
    requires Encoding(f, message, step, i, out) && i < |message|
    requires i + 8 > |message| || step == 0 || f(message[i..i + 8]).None?
    ensures EncodeFrom(f, message, step, 0) == None
  {
  }

  /** The loop, with what it makes of eight characters. */
  method EncodeLoop(f: Coder, message: string) returns (r: Option<seq<Word>>)
    ensures r == EncodeFrom(f, message, |message| / 8, 0)
  {
    var out := [];
    var i, step := 0, |message| / 8;
    EncodeStarts(f, message, step);
    while i < |message|
      invariant Encoding(f, message, step, i, out)
      decreases |message| - i
    {
      if i + 8 > |message| || f(message[i..i + 8]).None? {
        EncodeStops(f, message, step, i, out);
        return None;
      }
      var chunk := f(message[i..i + 8]).value;
      EncodeStep(f, message, step, i, out, chunk);
      out := out + chunk;
      i := i + step;
    }
    EncodeEnds(f, message, step, i, out);
    return Some(out);
  }

  /** `MnemonicEncode`, for any characters: nothing is returned if it panics. */
  method MnemonicEncode(words: seq<Word>, message: string) returns (r: Option<seq<Word>>)
    requires |words| == N
    ensures r == EncodeKey(words, message)
  {
    r := EncodeLoop(CoderOf(words), message);
  }

  /** The eight characters of a step have words. */
  predicate HasWords(f: Coder, message: string, step: nat, c: nat) {
    var i := step * c;
    i + 8 <= |message| && f(message[i..i + 8]).Some?
  }

  /** The eight characters of a step are no negative number. */
  predicate NotNegative(message: string, step: nat, c: nat) {
    var i := step * c;
    i + 8 <= |message| && ParseInt(message[i..i + 8]) >= 0
  }

  /** It panics unless the number of characters is a multiple of eight, and zero or at least 64,
      and none of the eight numbers is negative. */
  lemma {:induction false} EncodeDefined(words: seq<Word>, message: string)
    requires |words| == N
    ensures EncodeKey(words, message).Some? <==>
            || message == []
            || (&& |message| % 8 == 0 && |message| >= 64
                && forall c | 0 <= c < 8 :: NotNegative(message, |message| / 8, c))
  {
    var f, step := CoderOf(words), |message| / 8;
    forall c | 0 <= c < 8 ensures NotNegative(message, step, c) == HasWords(f, message, step, c) {
      var i := step * c;
      if i + 8 <= |message| { ChunkDefined(words, message[i..i + 8]); }
    }
    EncodeReaches(f, message, step);
  }

  lemma {:induction false} EncodeReaches(f: Coder, message: string, step: nat)
    requires step == |message| / 8
    ensures EncodeFrom(f, message, step, 0).Some? <==>
            || message == []
            || (|message| % 8 == 0 && step >= 8 && forall c | 0 <= c < 8 :: HasWords(f, message, step, c))
  {
    if step > 0 { EncodeSteps(f, message, step, 0); }
  }

  /** The slices start at multiples of the step; the last one that starts in the message decides. */
  lemma {:induction false} EncodeSteps(f: Coder, message: string, step: nat, c: nat)
    requires step == |message| / 8 > 0 && c <= 8
    ensures EncodeFrom(f, message, step, step * c).Some? <==>
            (forall d | c <= d < 8 :: HasWords(f, message, step, d)) && |message| % 8 == 0 && (c == 8 || step >= 8)
    decreases 8 - c
  {
    StepBound(step, c, |message|);
    if c < 8 {
      EncodeSteps(f, message, step, c + 1);
      EncodeTurn(f, message, step, c);
      if |message| % 8 == 0 { LastStep(f, message, step); }
    }
  }

  /** If the last slice is in the message, the step is at least eight. */
  lemma {:induction false} LastStep(f: Coder, message: string, step: nat)
    requires step == |message| / 8 > 0 && |message| % 8 == 0
    ensures HasWords(f, message, step, 7) ==> step >= 8
  {
  }

  lemma {:induction false} EncodeTurn(f: Coder, message: string, step: nat, c: nat)
    requires step > 0 && step * c < |message|
    ensures EncodeFrom(f, message, step, step * c).Some? <==>
            HasWords(f, message, step, c) && EncodeFrom(f, message, step, step * (c + 1)).Some?
  {
    assert step * (c + 1) == step * c + step;
  }

  lemma StepBound(step: nat, c: nat, n: nat)
    requires step == n / 8 > 0 && c <= 8
    ensures c < 8 ==> step * c < n
    ensures c == 8 ==> step * c <= n && (step * c == n <==> n % 8 == 0) && n < step * c + 8
  {
  }

  /** What three words at a time decode to. */
  function DecodeFrom(g: Reader, wordsar: seq<Word>): string {
    if |wordsar| < 3 then "" else g(wordsar[0], wordsar[1], wordsar[2]) + DecodeFrom(g, wordsar[3..])
  }

  function DecodeKey(words: seq<Word>, wordsar: seq<Word>): string {
    DecodeFrom(ReaderOf(words), wordsar)
  }

  method ChunkDigits(words: seq<Word>, a: Word, b: Word, c: Word) returns (x: string)
    ensures x == ReaderOf(words)(a, b, c)
  {
    var w1 := IndexOf(words, a);
    var w2 := IndexOf(words, b);
    var w3 := IndexOf(words, c);
    x := Hex08(Join(w1, w2, w3));
  }

  /** The words up to `i` are written out. */
  ghost predicate Decoding(g: Reader, wordsar: seq<Word>, i: nat, out: string) {
    i <= |wordsar| && i % 3 == 0 && out + DecodeFrom(g, wordsar[i..]) == DecodeFrom(g, wordsar)
  }

  lemma {:induction false} DecodeStep(g: Reader, wordsar: seq<Word>, i: nat, out: string)
    requires Decoding(g, wordsar, i, out) && i + 3 <= |wordsar|
    ensures Decoding(g, wordsar, i + 3, out + g(wordsar[i], wordsar[i + 1], wordsar[i + 2]))
  {
    var w, rest := wordsar[i..], wordsar[i + 3..];
    assert w[0] == wordsar[i] && w[1] == wordsar[i + 1] && w[2] == wordsar[i + 2] && w[3..] == rest;
    Joined(out, g(wordsar[i], wordsar[i + 1], wordsar[i + 2]), DecodeFrom(g, rest));
  }

  lemma Joined(a: string, b: string, c: string)
    ensures a + (b + c) == a + b + c
  {
  }

  lemma {:induction false} DecodeEnds(g: Reader, wordsar: seq<Word>, out: string)
    ensures Decoding(g, wordsar, 0, "")
    ensures Decoding(g, wordsar, |wordsar|, out) ==> out == DecodeFrom(g, wordsar)
  {
    assert wordsar[0..] == wordsar && wordsar[|wordsar|..] == [];
    assert "" + DecodeFrom(g, wordsar) == DecodeFrom(g, wordsar) && out + "" == out;
  }

  lemma NotThree(i: nat, n: nat)
    requires i % 3 == 0 && i < n <= i + 2
    ensures n % 3 != 0
  {
  }

  /** `MnemonicDecode`, for any words: nothing is returned if it panics. */
  method MnemonicDecode(words: seq<Word>, wordsar: seq<Word>) returns (r: Option<string>)
    requires |words| == N
    ensures r == if |wordsar| % 3 == 0 then Some(DecodeKey(words, wordsar)) else None
  {
    ghost var g := ReaderOf(words);
    var out := "";
    var i := 0;
    DecodeEnds(g, wordsar, out);
    while i < |wordsar|
      invariant Decoding(g, wordsar, i, out)
    {
      if i + 2 >= |wordsar| {
        NotThree(i, |wordsar|);
        return None;
      }
      var x := ChunkDigits(words, wordsar[i], wordsar[i + 1], wordsar[i + 2]);
      DecodeStep(g, wordsar, i, out);
      out := out + x;
      i := i + 3;
    }
    DecodeEnds(g, wordsar, out);
    return Some(out);
  }

  /** Eight digits are given back, in lower case. */
  ghost predicate GivesBack(f: Coder, g: Reader, x: string)
    requires AllHex(x)
  {
    f(x).Some? && |f(x).value| == 3 && g(f(x).value[0], f(x).value[1], f(x).value[2]) == Lower(x)
  }

  ghost predicate Inverse(f: Coder, g: Reader) {
    forall x | AllHex(x) && |x| == 8 :: GivesBack(f, g, x)
  }

  lemma {:induction false} ChunksBack(words: seq<Word>)
    requires IsWordList(words)
    ensures Inverse(CoderOf(words), ReaderOf(words))
  {
    forall x | AllHex(x) && |x| == 8 ensures GivesBack(CoderOf(words), ReaderOf(words), x) {
      ChunkRoundTrip(words, x);
      HexBack(x);
    }
  }

  lemma {:induction false} ReadChunk(g: Reader, chunk: seq<Word>, rest: seq<Word>)
    requires |chunk| == 3
    ensures DecodeFrom(g, chunk + rest) == g(chunk[0], chunk[1], chunk[2]) + DecodeFrom(g, rest)
  {
    assert (chunk + rest)[3..] == rest;
  }

  lemma {:induction false} LowerSlices(s: string, i: nat)
    requires AllHex(s) && i + 8 <= |s|
    ensures Lower(s[i..i + 8]) + Lower(s)[i + 8..] == Lower(s)[i..]
  {
  }

  /** The words from a digit on, and that they decode to the digits. */
  lemma {:induction false} KeyBack(f: Coder, g: Reader, message: string, i: nat, n: nat) returns (r: seq<Word>)
    requires Inverse(f, g) && AllHex(message) && i + 8 * n == |message|
    ensures EncodeFrom(f, message, 8, i) == Some(r) && |r| == 3 * n && DecodeFrom(g, r) == Lower(message)[i..]
    decreases n
  {
    if n == 0 {
      r := [];
    } else {
      var q := KeyBack(f, g, message, i + 8, n - 1);
      var x := message[i..i + 8];
      assert GivesBack(f, g, x);
      r := f(x).value + q;
      ReadChunk(g, f(x).value, q);
      LowerSlices(message, i);
    }
  }

  /** A key of 64 digits has 24 words, and they decode to it, in lower case. */
  lemma {:induction false} MnemonicRoundTrip(words: seq<Word>, message: string)
    requires IsWordList(words) && AllHex(message) && |message| == 64
    ensures var r := EncodeKey(words, message);
            r.Some? && |r.value| == 24 && DecodeKey(words, r.value) == Lower(message)
  {
    ChunksBack(words);
    var r := KeyBack(CoderOf(words), ReaderOf(words), message, 0, 8);
    assert Lower(message)[0..] == Lower(message);
  }
}
