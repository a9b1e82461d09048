/** The zero-run compressor of `monkutil/rlp.go`. */
module ZeroRun {
  import opened Bytes

  /** The number of zeros `d` starts with. */
  function Run(d: seq<byte>): (l: nat)
    ensures l <= |d| && (l < |d| ==> d[l] != 0)
    ensures forall j | 0 <= j < l :: d[j] == 0
  {
    if d == [] || d[0] != 0 then 0 else 1 + Run(d[1..])
  }

  /** What a run of `l` zeros is written as. */
  function Code(l: nat): seq<byte>
    requires l > 0
  {
    if l == 1 then [0]
    else if l < 256 then [0, 0, l]
    else [0, 0, 0, |BigBytes(l)| % 256] + BigBytes(l)
  }

  function Compress(d: seq<byte>): seq<byte>
    decreases |d|
  {
    if d == [] then []
    else if d[0] != 0 then [d[0]] + Compress(d[1..])
    else Code(Run(d)) + Compress(d[Run(d)..])
  }

  datatype Expansion = Panic | Expanded(d: seq<byte>)

  function After(p: seq<byte>, r: Expansion): Expansion {
    match r
    case Panic => Panic
    case Expanded(d) => Expanded(p + d)
  }

  /** Two zeros with at least one more byte start a run. */
  predicate Trigger(c: seq<byte>) {
    |c| >= 3 && c[0] == 0 && c[1] == 0
  }

  /** Somewhere in its first `n` bytes, `c` looks like the start of a run. */
  predicate Misleads(c: seq<byte>, n: nat)
    requires n <= |c|
  {
    exists p | 0 <= p < n :: Trigger(c[p..])
  }

  /** The number in some bytes as an `int64`: of a longer one the low 64 bits. */
  function Count(b: seq<byte>): int {
    var v := FromBytes(b) % TWO64;
    if v < TWO63 then v else v - TWO64
  }

  /** What `decompress0` makes of a buffer. The bytes of a long length are scanned once
      more; two zeros among them make it slice backwards, which panics, as does a
      length that leaves the buffer or is negative as an `int64`. */
  function Decompress(c: seq<byte>): Expansion
    decreases |c|
  {
    if c == [] then Expanded([])
    else if !Trigger(c) then After([c[0]], Decompress(c[1..]))
    else if c[2] != 0 then After(Zeros(c[2]), Decompress(c[3..]))
    else if |c| < 4 || |c| - 4 < c[3] then Panic
    else
      var rest, n := c[4..], c[3];
      var count := Count(rest[..n]);
      if count < 0 || Misleads(rest, n) then Panic else After(Zeros(count), Decompress(rest[n..]))
  }

  // ---- When decompressing undoes compressing ----------------------------------------

  /** Two zero bytes in a row in a length, with a byte to follow. */
  predicate Misread(l: seq<byte>, more: bool) {
    exists p | 0 <= p < |l| - 1 :: l[p] == 0 && l[p + 1] == 0 && (p + 2 < |l| || more)
  }

  /** No length of a run is misread. */
  predicate Intact(d: seq<byte>)
    decreases |d|
  {
    d == [] ||
    if d[0] != 0 then Intact(d[1..])
    else
      var l := Run(d);
      (l >= 256 ==> !Misread(BigBytes(l), l < |d|)) && Intact(d[l..])
  }

  /** A rest that does not start with a zero. */
  predicate Fresh(d: seq<byte>) {
    d == [] || d[0] != 0
  }

  lemma CompressFresh(d: seq<byte>)
    requires Fresh(d)
    ensures Fresh(Compress(d)) && (Compress(d) == [] <==> d == [])
  {
  }

  lemma {:induction false} LengthMisleads(l: seq<byte>, rest: seq<byte>)
    requires Fresh(rest)
    ensures Misleads(l + rest, |l|) <==> Misread(l, rest != [])
  {
    var c := l + rest;
    assert forall p | 0 <= p < |l| - 1 :: c[p..][0] == l[p] && c[p..][1] == l[p + 1];
    if p :| 0 <= p < |l| && Trigger(c[p..]) {
      assert c[p..][1] == c[p + 1] && c[p..][0] == l[p];
    }
    if Misread(l, rest != []) {
      var p :| 0 <= p < |l| - 1 && l[p] == 0 && l[p + 1] == 0 && (p + 2 < |l| || rest != []);
      assert Trigger(c[p..]);
    }
  }

  lemma {:induction false} ReadShort(l: nat, rest: seq<byte>)
    requires 0 < l < 256 && Fresh(rest)
    ensures Decompress(Code(l) + rest) == After(Zeros(l), Decompress(rest))
  {
    var c := Code(l) + rest;
    if l == 1 {
      assert c[1..] == rest && Zeros(1) == [0];
    } else {
      assert c[3..] == rest;
    }
  }

  lemma {:induction false} SmallCount(b: seq<byte>)
    requires FromBytes(b) < TWO63
    ensures Count(b) == FromBytes(b)
  {
  }

  lemma {:induction false} LongCode(l: nat)
    requires 256 <= l < TWO63
    ensures 0 < |BigBytes(l)| <= 8 && Count(BigBytes(l)) == l
    ensures Code(l) == [0, 0, 0, |BigBytes(l)|] + BigBytes(l)
  {
    assert Pow256(8) == TWO64;
    BigBytesValue(l);
    BigBytesLength(l, 8);
    SmallCount(BigBytes(l));
  }

  lemma {:induction false} ReadHeader(b: seq<byte>, rest: seq<byte>)
    requires 0 < |b| < 256
    ensures Decompress([0, 0, 0, |b|] + b + rest) ==
            if Count(b) < 0 || Misleads(b + rest, |b|) then Panic else After(Zeros(Count(b)), Decompress(rest))
  {
    var c := [0, 0, 0, |b|] + b + rest;
    assert c[4..] == b + rest;
    assert (b + rest)[..|b|] == b && (b + rest)[|b|..] == rest;
  }

  lemma {:induction false} ReadLong(l: nat, rest: seq<byte>)
    requires 256 <= l < TWO63 && Fresh(rest)
    ensures Decompress(Code(l) + rest) ==
            if Misread(BigBytes(l), rest != []) then Panic else After(Zeros(l), Decompress(rest))
  {
    LongCode(l);
    ReadHeader(BigBytes(l), rest);
    LengthMisleads(BigBytes(l), rest);
  }

  lemma {:induction false} ReadByte(x: byte, rest: seq<byte>)
    requires x != 0
    ensures Decompress([x] + rest) == After([x], Decompress(rest))
  {
    assert ([x] + rest)[1..] == rest;
  }

  lemma {:induction false} RunAndRest(d: seq<byte>)
    ensures d == Zeros(Run(d)) + d[Run(d)..] && Fresh(d[Run(d)..])
  {
  }

  /** Decompressing gives the input back exactly when no length of a run is misread;
      otherwise it panics. */
  lemma {:induction false} RoundTrip(d: seq<byte>)
    requires |d| < TWO63
    ensures Decompress(Compress(d)) == if Intact(d) then Expanded(d) else Panic
    decreases |d|
  {
    if d != [] {
      if d[0] != 0 {
        RoundTrip(d[1..]);
        ReadByte(d[0], Compress(d[1..]));
        assert d == [d[0]] + d[1..];
      } else {
        var l := Run(d);
        RoundTrip(d[l..]);
        RunAndRest(d);
        CompressFresh(d[l..]);
        if l < 256 { ReadShort(l, Compress(d[l..])); } else { ReadLong(l, Compress(d[l..])); }
      }
    }
  }

  lemma ShortLength(l: nat, more: bool)
    requires 0 < l < 65536
    ensures !Misread(BigBytes(l), more)
  {
    assert Pow256(1) == 256 && Pow256(2) == 256 * Pow256(1);
    BigBytesLength(l, 2);
    BigBytesValue(l);
  }

  predicate ShortRuns(d: seq<byte>) {
    forall j | 0 <= j < |d| :: Run(d[j..]) < 65536
  }

  lemma {:induction false} LaterRuns(d: seq<byte>, k: nat)
    requires ShortRuns(d) && k <= |d|
    ensures ShortRuns(d[k..])
  {
    forall j | 0 <= j < |d[k..]| ensures Run(d[k..][j..]) < 65536 {
      assert d[k..][j..] == d[k + j..];
    }
  }

  /** In particular whenever every run is shorter than 65536. */
  lemma {:induction false} ShortRunsIntact(d: seq<byte>)
    requires ShortRuns(d)
    ensures Intact(d)
    decreases |d|
  {
    if d != [] {
      var k := if d[0] != 0 then 1 else Run(d);
      assert d[0..] == d;
      if d[0] == 0 { ShortLength(Run(d), Run(d) < |d|); }
      LaterRuns(d, k);
      ShortRunsIntact(d[k..]);
    }
  }

  lemma {:induction false} RunOfZeros(n: nat, rest: seq<byte>)
    requires Fresh(rest)
    ensures Run(Zeros(n) + rest) == n
  {
    var d := Zeros(n) + rest;
    if n > 0 {
      RunOfZeros(n - 1, rest);
      assert d[1..] == Zeros(n - 1) + rest;
    } else {
      assert d == rest;
    }
  }

  lemma LastDigit(q: nat, r: byte)
    requires q > 0 || r > 0
    ensures BigBytes(256 * q + r) == BigBytes(q) + [r]
  {
    var n := 256 * q + r;
    assert n / 256 == q && n % 256 == r;
  }

  /** A run of exactly 65536 zeros is misread when anything follows it, and only then. */
  lemma Run65536(rest: seq<byte>)
    requires Fresh(rest) && Intact(rest)
    ensures Intact(Zeros(65536) + rest) <==> rest == []
  {
    var d := Zeros(65536) + rest;
    RunOfZeros(65536, rest);
    assert d[65536..] == rest;
    LastDigit(0, 1);
    LastDigit(1, 0);
    LastDigit(256, 0);
    var l := BigBytes(65536);
    assert l == [1, 0, 0];
    assert l[1] == 0 && l[2] == 0;
  }

  // ---- The loops ------------------------------------------------------------------------

  predicate Zero(d: seq<byte>, from: nat, to: nat)
    requires to <= |d|
  {
    forall j | from <= j < to :: d[j] == 0
  }

  predicate NonZero(d: seq<byte>, from: nat, to: nat)
    requires to <= |d|
  {
    forall j | from <= j < to :: d[j] != 0
  }

  /** Where the last run ends. */
  function End(runs: seq<(nat, nat)>): nat {
    if runs == [] then 0 else runs[|runs| - 1].1
  }

  /** The runs of zeros of `d[..upto]`, in order. */
  predicate AreRuns(d: seq<byte>, runs: seq<(nat, nat)>, upto: nat)
    requires upto <= |d|
    decreases |runs|
  {
    && End(runs) <= upto && NonZero(d, End(runs), upto)
    && (runs != [] ==>
          var n := |runs| - 1;
          var (b, e) := runs[n];
          b < e && Zero(d, b, e) && (e < |d| ==> d[e] != 0) && AreRuns(d, runs[..n], b))
  }

  lemma {:induction false} RunFound(d: seq<byte>, runs: seq<(nat, nat)>, b: nat, e: nat, upto: nat)
    requires b < e <= upto <= |d| && AreRuns(d, runs, b)
    requires Zero(d, b, e) && NonZero(d, e, upto) && (e < |d| ==> d[e] != 0)
    ensures AreRuns(d, runs + [(b, e)], upto)
  {
    var all := runs + [(b, e)];
    assert all[..|all| - 1] == runs;
  }

  /** Run `m` follows the one before it. */
  lemma {:induction false} RunAt(d: seq<byte>, runs: seq<(nat, nat)>, upto: nat, m: nat)
    requires upto <= |d| && AreRuns(d, runs, upto) && m < |runs|
    ensures var (b, e) := runs[m];
            && End(runs[..m]) <= b < e <= |d|
            && NonZero(d, End(runs[..m]), b) && Zero(d, b, e) && (e < |d| ==> d[e] != 0)
    decreases |runs|
  {
    var n := |runs| - 1;
    if m < n {
      RunAt(d, runs[..n], runs[n].0, m);
      assert runs[..n][..m] == runs[..m];
    }
  }

  method FindRuns(d: seq<byte>) returns (matches: seq<(nat, nat)>)
    ensures AreRuns(d, matches, |d|)
  {
    matches := [];
    var beg, inside := 0, false;
    for i := 0 to |d|
      invariant beg <= i
      invariant inside ==> beg < i && Zero(d, beg, i)
      invariant AreRuns(d, matches, if inside then beg else i)
    {
      if !inside && d[i] == 0 {
        beg, inside := i, true;
      }
      if inside && d[i] != 0 {
        RunFound(d, matches, beg, i, i + 1);
        matches, inside := matches + [(beg, i)], false;
      }
    }
    if inside {
      RunFound(d, matches, beg, |d|, |d|);
      matches := matches + [(beg, |d|)];
    }
  }

  lemma {:induction false} Prepend(d: seq<byte>, from: nat, to: nat, rest: seq<byte>)
    requires from < to <= |d|
    ensures [d[from]] + (d[from + 1..to] + rest) == d[from..to] + rest
  {
  }

  lemma {:induction false} LiteralHead(d: seq<byte>, from: nat)
    requires from < |d| && d[from] != 0
    ensures Compress(d[from..]) == [d[from]] + Compress(d[from + 1..])
  {
    assert d[from..][1..] == d[from + 1..];
  }

  /** Bytes without zeros are copied. */
  lemma {:induction false} Literals(d: seq<byte>, from: nat, to: nat)
    requires from <= to <= |d| && NonZero(d, from, to)
    ensures Compress(d[from..]) == d[from..to] + Compress(d[to..])
    decreases |d| - from
  {
    if from < to {
      LiteralHead(d, from);
      Literals(d, from + 1, to);
      Prepend(d, from, to, Compress(d[to..]));
    } else {
      assert d[from..to] == [];
    }
  }

  lemma {:induction false} RunIs(d: seq<byte>, l: nat)
    requires l <= |d| && (l < |d| ==> d[l] != 0) && forall j | 0 <= j < l :: d[j] == 0
    ensures Run(d) == l
  {
  }

  lemma {:induction false} CodedRun(d: seq<byte>, beg: nat, end: nat)
    requires beg < end <= |d| && Zero(d, beg, end) && (end < |d| ==> d[end] != 0)
    ensures Compress(d[beg..]) == Code(end - beg) + Compress(d[end..])
  {
    RunIs(d[beg..], end - beg);
    assert d[beg..][end - beg..] == d[end..];
  }

  lemma {:induction false} Regroup(dd: seq<byte>, a: seq<byte>, b: seq<byte>, c: seq<byte>)
    ensures dd + (a + (b + c)) == dd + a + b + c
  {
  }

  method RunCode(l: nat) returns (c: seq<byte>)
    requires l > 0
    ensures c == Code(l)
  {
    if l > 1 {
      if l < 256 { return [0, 0, l]; }
      var lenn := BigBytes(l);
      return [0, 0, 0, |lenn| % 256] + lenn;
    }
    return [0];
  }

  /** One turn of the loop. */
  lemma {:induction false} Emitted(d: seq<byte>, last: nat, beg: nat, end: nat, dd: seq<byte>, dd': seq<byte>, whole: seq<byte>)
    requires last <= beg < end <= |d| && NonZero(d, last, beg) && Zero(d, beg, end) && (end < |d| ==> d[end] != 0)
    requires whole == dd + Compress(d[last..]) && dd' == dd + d[last..beg] + Code(end - beg)
    ensures whole == dd' + Compress(d[end..])
  {
    Literals(d, last, beg);
    CodedRun(d, beg, end);
    Regroup(dd, d[last..beg], Code(end - beg), Compress(d[end..]));
  }

  lemma {:induction false} Finished(d: seq<byte>, last: nat, dd: seq<byte>)
    requires last <= |d| && NonZero(d, last, |d|)
    ensures dd + Compress(d[last..]) == dd + d[last..]
    ensures last == |d| ==> dd + d[last..] == dd
  {
    Literals(d, last, |d|);
    assert d[last..|d|] + [] == d[last..];
  }

  lemma EndSnoc(runs: seq<(nat, nat)>, m: nat)
    requires m < |runs|
    ensures End(runs[..m + 1]) == runs[m].1
  {
  }

  method Compress0(d: seq<byte>) returns (dd: seq<byte>)
    ensures dd == Compress(d)
  {
    var matches := FindRuns(d);
    ghost var whole := Compress(d);
    dd := [];
    var last := 0;
    assert d[0..] == d;
    for m := 0 to |matches|
      invariant last == End(matches[..m]) <= |d|
      invariant whole == dd + Compress(d[last..])
    {
      RunAt(d, matches, |d|, m);
      EndSnoc(matches, m);
      var (beg, end) := matches[m];
      dd := EmitRun(d, last, beg, end, dd, whole);
      last := end;
    }
    assert matches[..|matches|] == matches;
    Finished(d, last, dd);
    if last != |d| { dd := dd + d[last..]; }
  }

  method EmitRun(d: seq<byte>, last: nat, beg: nat, end: nat, dd: seq<byte>, ghost whole: seq<byte>)
    returns (dd': seq<byte>)
    requires last <= beg < end <= |d| && NonZero(d, last, beg) && Zero(d, beg, end) && (end < |d| ==> d[end] != 0)
    requires whole == dd + Compress(d[last..])
    ensures whole == dd' + Compress(d[end..])
  {
    var code := RunCode(end - beg);
    dd' := dd + d[last..beg] + code;
    Emitted(d, last, beg, end, dd, dd', whole);
  }

  /** What is still to come in the loop of `decompress0`: with `last` behind `i` the bytes
      between are pending; with `last` ahead a length is being scanned again. */
  ghost function Pending(d: seq<byte>, i: nat, last: nat, dd: seq<byte>): Expansion
    requires i <= |d| && last <= |d|
  {
    if last <= i then After(dd + d[last..i], Decompress(d[i..]))
    else if Misleads(d[i..], last - i) then Panic
    else After(dd, Decompress(d[last..]))
  }

  lemma {:induction false} AfterAfter(p: seq<byte>, q: seq<byte>, r: Expansion)
    ensures After(p, After(q, r)) == After(p + q, r)
  {
    if r.Expanded? { assert p + (q + r.d) == p + q + r.d; }
  }

  lemma {:induction false} SkipByte(d: seq<byte>, i: nat, last: nat, dd: seq<byte>)
    requires i < |d| && last <= |d| && !Trigger(d[i..])
    ensures Pending(d, i, last, dd) == Pending(d, i + 1, last, dd)
  {
    if last <= i {
      assert d[i..][1..] == d[i + 1..];
      AfterAfter(dd + d[last..i], [d[i]], Decompress(d[i + 1..]));
      assert dd + d[last..i] + [d[i]] == dd + d[last..i + 1];
    } else {
      SkipRescan(d, i, last);
      assert last == i + 1 ==> dd + d[last..i + 1] == dd;
    }
  }

  lemma {:induction false} SkipRescan(d: seq<byte>, i: nat, last: nat)
    requires i < last <= |d| && !Trigger(d[i..])
    ensures Misleads(d[i..], last - i) <==> Misleads(d[i + 1..], last - i - 1)
  {
    if p :| 0 <= p < last - i && Trigger(d[i..][p..]) {
      assert d[i..][0..] == d[i..];
      assert d[i..][p..] == d[i + 1..][p - 1..];
    }
    var e := d[i + 1..];
    if p :| 0 <= p < last - i - 1 && Trigger(e[p..]) {
      assert d[i..][p + 1..] == e[p..];
    }
  }

  lemma {:induction false} TakeShort(d: seq<byte>, i: nat, last: nat, dd: seq<byte>)
    requires i + 3 <= |d| && last <= i && Trigger(d[i..]) && d[i + 2] != 0
    ensures Pending(d, i, last, dd) == Pending(d, i + 3, i + 3, dd + d[last..i] + Zeros(d[i + 2]))
  {
    var base := dd + d[last..i];
    assert d[i..][3..] == d[i + 3..] && d[i..][2] == d[i + 2];
    AfterAfter(base, Zeros(d[i + 2]), Decompress(d[i + 3..]));
    assert base + Zeros(d[i + 2]) + d[i + 3..i + 3] == base + Zeros(d[i + 2]);
  }

  lemma {:induction false} TakeLong(d: seq<byte>, i: nat, last: nat, dd: seq<byte>)
    requires i + 3 <= |d| && last <= i && Trigger(d[i..]) && d[i + 2] == 0
    ensures i + 3 >= |d| || |d| - (i + 4) < d[i + 3] ==> Pending(d, i, last, dd) == Panic
    ensures i + 3 < |d| && d[i + 3] <= |d| - (i + 4) ==>
              var n := d[i + 3];
              var count := Count(d[i + 4..][..n]);
              Pending(d, i, last, dd) ==
              if count < 0 then Panic else Pending(d, i + 4, i + 4 + n, dd + d[last..i] + Zeros(count))
  {
    var c := d[i..];
    assert c[2] == d[i + 2];
    if i + 3 < |d| && d[i + 3] <= |d| - (i + 4) {
      var n, base := d[i + 3], dd + d[last..i];
      assert c[3] == n && c[4..] == d[i + 4..] && d[i + 4..][n..] == d[i + 4 + n..];
      var count := Count(d[i + 4..][..n]);
      if count >= 0 {
        AfterAfter(base, Zeros(count), Decompress(d[i + 4 + n..]));
        assert n == 0 ==> base + Zeros(count) + d[i + 4..i + 4] == base + Zeros(count);
      }
    }
  }

  lemma {:induction false} Backwards(d: seq<byte>, i: nat, last: nat, dd: seq<byte>)
    requires i < last <= |d| && Trigger(d[i..])
    ensures Pending(d, i, last, dd) == Panic
  {
    assert d[i..][0..] == d[i..];
  }

  method Decompress0(d: seq<byte>) returns (r: Expansion)
    ensures r == Decompress(d)
  {
    var dd: seq<byte>, last: nat, i: nat := [], 0, 0;
    AfterNothing(d);
    while i < |d|
      invariant i <= |d| && last <= |d| && Pending(d, i, last, dd) == Decompress(d)
    {
      if |d| - i < 3 || d[i] != 0 || d[i + 1] != 0 {
        SkipByte(d, i, last, dd);
        i := i + 1;
        continue;
      }
      if last > i { Backwards(d, i, last, dd); return Panic; }
      if d[i + 2] == 0 {
        TakeLong(d, i, last, dd);
        if i + 3 >= |d| || |d| - (i + 4) < d[i + 3] { return Panic; }
        var n: nat := d[i + 3];
        var nzeros := Count(d[i + 4..][..n]);
        if nzeros < 0 { return Panic; }
        dd := dd + d[last..i] + Zeros(nzeros);
        last, i := i + 4 + n, i + 4;
      } else {
        TakeShort(d, i, last, dd);
        dd := dd + d[last..i] + Zeros(d[i + 2]);
        last, i := i + 3, i + 3;
      }
    }
    assert d[|d|..] == [] && dd + d[last..] + [] == dd + d[last..];
    return Expanded(dd + d[last..]);
  }

  lemma AfterNothing(d: seq<byte>)
    ensures Pending(d, 0, 0, []) == Decompress(d)
  {
    assert d[0..] == d && [] + d[0..0] == [];
    assert Decompress(d).Expanded? ==> [] + Decompress(d).d == Decompress(d).d;
  }
}
