/** Message framing of `monkwire/messaging.go`: `WriteMessage`, and the loop of
    `ReadMessages` that puts frames together from whatever each read returns. */
module Wire {
  import opened Bytes
  import opened Rlp

  const MAGIC: seq<byte> := [34, 64, 8, 145]

  /** A message: its type and the items of its data. */
  datatype Msg = Msg(kind: byte, data: seq<Item>)

  // ---- Writing ------------------------------------------------------------------

  /** `k` big-endian bytes, as `binary.Write` gives for a fixed-width number. */
  function Fixed(n: nat, k: nat): (b: seq<byte>)
    ensures |b| == k
  {
    if k == 0 then [] else Fixed(n / 256, k - 1) + [n % 256]
  }

  lemma {:induction false} FixedValue(n: nat, k: nat)
    requires n < Pow256(k)
    ensures FromBytes(Fixed(n, k)) == n
  {
    if k > 0 {
      FixedValue(n / 256, k - 1);
      var b := Fixed(n, k);
      assert b[..k - 1] == Fixed(n / 256, k - 1);
    }
  }

  function Payload(m: Msg): seq<byte> {
    Encode(List([Byte(m.kind)] + m.data))
  }

  /** Magic token, four bytes of length, payload. */
  function Frame(p: seq<byte>): (f: seq<byte>)
    ensures |f| == 8 + |p|
  {
    MAGIC + Fixed(|p|, 4) + p
  }

  function Frames(ps: seq<seq<byte>>): seq<byte> {
    if ps == [] then [] else Frame(ps[0]) + Frames(ps[1..])
  }

  // ---- Reading ---------------------------------------------------------------------

  function Joined(chunks: seq<seq<byte>>): seq<byte> {
    if chunks == [] then [] else chunks[0] + Joined(chunks[1..])
  }

  /** `Received` payloads after so many reads; a `Mismatch` of the token; a header that is
      not complete when it is looked at; or no more reads to be had. */
  datatype Outcome = Received(payloads: seq<seq<byte>>, taken: nat) | Mismatch | CutHeader | Waiting

  /** The reads carry frames with these payloads, as far as they go. */
  ghost predicate Carry(chunks: seq<seq<byte>>, ps: seq<seq<byte>>) {
    && Joined(chunks) <= Frames(ps)
    && (forall i | 0 <= i < |ps| :: 0 < |ps[i]| < Pow256(4))
  }

  /** No read ends inside a header. */
  ghost predicate HeadersWhole(chunks: seq<seq<byte>>, ps: seq<seq<byte>>) {
    forall k, j | 0 <= k <= |chunks| && 0 <= j <= |ps| ::
      var read, before := |Joined(chunks[..k])|, |Frames(ps[..j])|;
      !(before < read < before + 8)
  }

  lemma {:induction false} JoinedSplit(chunks: seq<seq<byte>>, k: nat)
    requires k <= |chunks|
    ensures Joined(chunks) == Joined(chunks[..k]) + Joined(chunks[k..])
  {
    if k == 0 {
      assert chunks[0..] == chunks;
    } else {
      JoinedSplit(chunks[1..], k - 1);
      assert chunks[..k][1..] == chunks[1..][..k - 1] && chunks[1..][k - 1..] == chunks[k..];
      Regroup(chunks[0], Joined(chunks[1..][..k - 1]), Joined(chunks[k..]));
    }
  }

  lemma {:induction false} JoinedSnoc(chunks: seq<seq<byte>>, k: nat)
    requires k < |chunks|
    ensures Joined(chunks[..k + 1]) == Joined(chunks[..k]) + chunks[k]
  {
    var r := chunks[..k + 1];
    JoinedSplit(r, k);
    assert r[..k] == chunks[..k] && r[k..] == [chunks[k]];
    assert Joined(r[k..]) == chunks[k] + [];
  }

  lemma {:induction false} FramesSplit(ps: seq<seq<byte>>, j: nat)
    requires j <= |ps|
    ensures Frames(ps) == Frames(ps[..j]) + Frames(ps[j..])
  {
    if j == 0 {
      assert ps[0..] == ps;
    } else {
      FramesSplit(ps[1..], j - 1);
      assert ps[..j][1..] == ps[1..][..j - 1] && ps[1..][j - 1..] == ps[j..];
      Regroup(Frame(ps[0]), Frames(ps[1..][..j - 1]), Frames(ps[j..]));
    }
  }

  lemma {:induction false} FramesSnoc(ps: seq<seq<byte>>, j: nat)
    requires j < |ps|
    ensures Frames(ps[..j + 1]) == Frames(ps[..j]) + Frame(ps[j])
  {
    var r := ps[..j + 1];
    FramesSplit(r, j);
    assert r[..j] == ps[..j] && r[j..] == [ps[j]];
    assert Frames(r[j..]) == Frame(ps[j]) + [];
  }

  /** Halfway through the loop: `k` reads taken, `j` payloads complete, and `buff` the rest of
      what was read, after the header if `len` is set. */
  ghost predicate Underway(chunks: seq<seq<byte>>, ps: seq<seq<byte>>, k: nat, j: nat, buff: seq<byte>, len: nat) {
    && k <= |chunks| && j <= |ps|
    && |Joined(chunks[..k])| == |Frames(ps[..j])| + (if len > 0 then 8 else 0) + |buff|
    && (len > 0 ==> j < |ps| && len == |ps[j]| && buff + Joined(chunks[k..]) <= ps[j] + Frames(ps[j + 1..]))
    && (len == 0 ==> buff + Joined(chunks[k..]) <= Frames(ps[j..]))
  }

  lemma {:induction false} TakeChunk(chunks: seq<seq<byte>>, ps: seq<seq<byte>>, k: nat, j: nat, buff: seq<byte>, len: nat)
    requires Underway(chunks, ps, k, j, buff, len) && k < |chunks|
    ensures Underway(chunks, ps, k + 1, j, buff + chunks[k], len)
  {
    JoinedSnoc(chunks, k);
    var rest := chunks[k..];
    assert rest[1..] == chunks[k + 1..];
    Regroup(buff, chunks[k], Joined(chunks[k + 1..]));
  }

  lemma {:induction false} HeaderRead(p: seq<byte>, rest: seq<byte>, buff: seq<byte>, more: seq<byte>)
    requires buff + more <= Frame(p) + rest && |buff| >= 8 && |p| < Pow256(4)
    ensures buff[..4] == MAGIC && FromBytes(buff[4..8]) == |p| && buff[8..] + more <= p + rest
  {
    var f, all := Frame(p) + rest, buff + more;
    FixedValue(|p|, 4);
    assert all == f[..|all|];
    assert buff[..4] == all[..4] == f[..4] == MAGIC;
    assert buff[4..8] == all[4..8] == f[4..8] == Fixed(|p|, 4);
    assert buff[8..] + more == all[8..] == f[8..|all|];
    assert f[8..] == p + rest;
  }

  lemma {:induction false} TakeHeader(chunks: seq<seq<byte>>, ps: seq<seq<byte>>, k: nat, j: nat, buff: seq<byte>)
    requires Carry(chunks, ps) && HeadersWhole(chunks, ps) && Underway(chunks, ps, k, j, buff, 0) && buff != []
    ensures |buff| >= 8 && buff[..4] == MAGIC && FromBytes(buff[4..8]) > 0
    ensures Underway(chunks, ps, k, j, buff[8..], FromBytes(buff[4..8]))
  {
    assert |buff| >= 8;
    assert ps[j..][1..] == ps[j + 1..];
    HeaderRead(ps[j], Frames(ps[j + 1..]), buff, Joined(chunks[k..]));
  }

  lemma {:induction false} TakePayload(chunks: seq<seq<byte>>, ps: seq<seq<byte>>, k: nat,
                                       messages: seq<seq<byte>>, buff: seq<byte>, len: nat)
    requires Underway(chunks, ps, k, |messages|, buff, len) && messages <= ps && 0 < len <= |buff|
    ensures messages + [buff[..len]] <= ps && Underway(chunks, ps, k, |messages| + 1, buff[len..], 0)
  {
    var j := |messages|;
    var f, all := ps[j] + Frames(ps[j + 1..]), buff + Joined(chunks[k..]);
    assert all == f[..|all|];
    assert buff[..len] == all[..len] == f[..len] == ps[j];
    assert buff[len..] + Joined(chunks[k..]) == all[len..] == f[len..|all|];
    assert f[len..] == Frames(ps[j + 1..]);
    FramesSnoc(ps, j);
  }

  lemma {:induction false} AllTaken(chunks: seq<seq<byte>>, ps: seq<seq<byte>>, k: nat, messages: seq<seq<byte>>)
    requires Carry(chunks, ps) && messages <= ps && Underway(chunks, ps, k, |messages|, [], 0)
    ensures Joined(chunks[..k]) == Frames(messages)
  {
    var j := |messages|;
    assert messages == ps[..j];
    JoinedSplit(chunks, k);
    FramesSplit(ps, j);
    var a, b := Joined(chunks[..k]), Frames(ps[..j]);
    assert a == Joined(chunks)[..|a|] == Frames(ps)[..|a|] == b;
  }

  /** The read loop. `ps` are payloads the reads may be known to carry: if they do, and no
      header is cut, nothing goes wrong, and when the loop ends the reads taken are exactly
      the frames of the payloads received. */
  method ReadFrames(chunks: seq<seq<byte>>, ghost ps: seq<seq<byte>>) returns (o: Outcome)
    ensures Carry(chunks, ps) && HeadersWhole(chunks, ps) ==>
              && (o.Waiting? || o.Received?)
              && (o.Received? ==>
                    && o.taken <= |chunks| && o.payloads != [] && o.payloads <= ps
                    && Joined(chunks[..o.taken]) == Frames(o.payloads))
  {
    ghost var good := Carry(chunks, ps) && HeadersWhole(chunks, ps);
    var buff: seq<byte>, messages: seq<seq<byte>>, len := [], [], 0;
    assert chunks[0..] == chunks && ps[0..] == ps;
    for k := 0 to |chunks|
      invariant len >= 0
      invariant good ==> messages <= ps
      invariant good ==> Underway(chunks, ps, k, |messages|, buff, len)
    {
      if good { TakeChunk(chunks, ps, k, |messages|, buff, len); }
      buff := buff + chunks[k];
      if buff == [] { continue; }
      if len == 0 {
        if good { TakeHeader(chunks, ps, k + 1, |messages|, buff); }
        if |buff| < 8 { return CutHeader; }
        if buff[..4] != MAGIC { return Mismatch; }
        len := FromBytes(buff[4..8]);
        buff := buff[8..];
      }
      if |buff| >= len {
        if good { TakePayload(chunks, ps, k + 1, messages, buff, len); }
        messages, buff, len := messages + [buff[..len]], buff[len..], 0;
        if buff == [] {
          if good { AllTaken(chunks, ps, k + 1, messages); }
          return Received(messages, k + 1);
        }
      }
    }
    return Waiting;
  }

  // ---- Decoding ---------------------------------------------------------------------------

  function Uint(x: Item): nat {
    match x
    case Byte(b) => b
    case Blob(s) => FromBytes(s)
    case _ => 0
  }

  datatype Opened = Broken | Opened(m: Msg)

  /** What `ReadMessages` makes of a payload. */
  function Open(p: seq<byte>): Opened {
    match Parse(p)
    case Panic => Broken
    case Parsed(x, _) =>
      if x.List? && x.items != [] then Opened(Msg(Uint(x.items[0]) % 256, x.items[1..])) else Broken
  }

  lemma KindKept(b: byte)
    ensures Uint(Decoded(Wire(Byte(b)))) == b
  {
    OneByte(b);
    assert FromBytes([b]) == b by { assert [b][..0] == []; }
  }

  /** A payload opens to the type and the data that were written, type 0 included, which
      is encoded as the empty string. */
  lemma OpenRoundTrip(m: Msg)
    requires Fits(Wire(List([Byte(m.kind)] + m.data)))
    ensures Open(Payload(m)) == Opened(Msg(m.kind, DecodedAll(WireAll(m.data))))
  {
    var items := [Byte(m.kind)] + m.data;
    assert items[1..] == m.data;
    ParseContent(Wire(List(items)), []);
    assert Payload(m) + [] == Payload(m);
    KindKept(m.kind);
    var xs := DecodedAll(WireAll(items));
    assert xs[1..] == DecodedAll(WireAll(m.data));
  }

  function Payloads(ms: seq<Msg>): (ps: seq<seq<byte>>)
    ensures |ps| == |ms| && forall i | 0 <= i < |ms| :: ps[i] == Payload(ms[i])
  {
    seq(|ms|, i requires 0 <= i < |ms| => Payload(ms[i]))
  }

  /** What arrives of a message that was written. */
  function Arrived(m: Msg): Msg {
    Msg(m.kind, DecodedAll(WireAll(m.data)))
  }

  /** `ReadMessages`: the messages, or an error, or still waiting. */
  datatype Reply = Messages(ms: seq<Msg>, taken: nat) | Error | Blocked

  method ReadMessages(chunks: seq<seq<byte>>, ghost ms: seq<Msg>) returns (r: Reply)
    requires forall i | 0 <= i < |ms| :: Fits(Wire(List([Byte(ms[i].kind)] + ms[i].data)))
    ensures Carry(chunks, Payloads(ms)) && HeadersWhole(chunks, Payloads(ms)) ==>
              && !r.Error?
              && (r.Messages? ==>
                    && r.taken <= |chunks| && 0 < |r.ms| <= |ms|
                    && (forall i | 0 <= i < |r.ms| :: r.ms[i] == Arrived(ms[i]))
                    && Joined(chunks[..r.taken]) == Frames(Payloads(ms)[..|r.ms|]))
  {
    var o := ReadFrames(chunks, Payloads(ms));
    if o.Waiting? { return Blocked; }
    if !o.Received? { return Error; }
    ghost var good := Carry(chunks, Payloads(ms)) && HeadersWhole(chunks, Payloads(ms));
    var out: seq<Msg> := [];
    for i := 0 to |o.payloads|
      invariant |out| == i
      invariant good ==> forall k | 0 <= k < i :: out[k] == Arrived(ms[k])
    {
      if good { OpenRoundTrip(ms[i]); }
      match Open(o.payloads[i]) {
        case Broken => return Error;
        case Opened(m) => out := out + [m];
      }
    }
    assert good ==> o.payloads == Payloads(ms)[..|out|];
    return Messages(out, o.taken);
  }
}
