/** The codec's methods: tables, the pluggable output, encoder, decoder, base64url. */
module Base64Codec {
  import opened Base64Spec

  const SIZE_MAX: nat := 0x1_0000_0000

  // ------------------------------------------------------------------ tables

  lemma IndexInjective(c: bv8, d: bv8)
    ensures c as int == d as int ==> c == d
  {
    assert (c as int) as bv8 == c && (d as int) as bv8 == d;
  }

  /** The table answers for every byte. */
  ghost predicate IsDecTable(dec: array<bv8>)
    reads dec
  {
    dec.Length == 256 && forall c: bv8 :: dec[c as int] == DecChar(c)
  }

  /** The first `i` characters of the alphabet have been entered. */
  ghost predicate Entered(dec: seq<bv8>, i: bv8) {
    |dec| == 256 && forall c: bv8 :: dec[c as int] == if DecChar(c) < i && c != PAD then DecChar(c) else INVALID
  }

  lemma EncCharMeets(i: bv8, c: bv8)
    requires i < 64
    ensures DecChar(c) < i + 1 && c != PAD <==> (DecChar(c) < i && c != PAD) || c == EncChar(i)
    ensures DecChar(EncChar(i)) == i
  {
    TablesAreInverse(i, c);
  }

  lemma EnterAt(dec: seq<bv8>, i: bv8, c: bv8)
    requires |dec| == 256 && i < 64
    requires dec[c as int] == if DecChar(c) < i && c != PAD then DecChar(c) else INVALID
    ensures dec[EncChar(i) as int := i][c as int] == if DecChar(c) < i + 1 && c != PAD then DecChar(c) else INVALID
  {
    hide EncChar, DecChar;
    EncCharMeets(i, c);
    IndexInjective(c, EncChar(i));
  }

  lemma EnterNext(dec: seq<bv8>, i: bv8)
    requires Entered(dec, i) && i < 64
    ensures Entered(dec[EncChar(i) as int := i], i + 1)
  {
    var next := dec[EncChar(i) as int := i];
    forall c: bv8
      ensures next[c as int] == if DecChar(c) < i + 1 && c != PAD then DecChar(c) else INVALID
    {
      assert dec[c as int] == if DecChar(c) < i && c != PAD then DecChar(c) else INVALID;
      EnterAt(dec, i, c);
    }
  }

  /** The decoding table, filled from the alphabet. */
  method CreateDecTable() returns (dec: array<bv8>)
    ensures fresh(dec) && IsDecTable(dec)
  {
    dec := new bv8[256](_ => INVALID);
    var i: bv8 := 0;
    while i < 64
      invariant i <= 64 && fresh(dec) && Entered(dec[..], i)
      decreases 64 - i
    {
      EnterNext(dec[..], i);
      ghost var next := dec[..][EncChar(i) as int := i];
      dec[EncChar(i) as int] := i;
      assert dec[..] == next;
      i := i + 1;
    }
    ghost var filled := dec[..];
    dec[PAD as int] := 0;
    forall c: bv8
      ensures dec[c as int] == DecChar(c)
    {
      TablesAreInverse(0, c);
      IndexInjective(c, PAD);
      assert filled[c as int] == if DecChar(c) < 64 && c != PAD then DecChar(c) else INVALID;
    }
  }

  // ------------------------------------------------------------------ output

  /** A full or final buffer handed to the writers, and whether one of them took all of it. */
  datatype Flush = Flush(block: seq<bv8>, taken: bool)

  function Offered(log: seq<Flush>): (s: seq<bv8>) {
    if log == [] then [] else Offered(log[..|log| - 1]) + log[|log| - 1].block
  }

  /** What arrived at a writer. */
  function Sent(log: seq<Flush>): (s: seq<bv8>) {
    if log == [] then []
    else Sent(log[..|log| - 1]) + (if log[|log| - 1].taken then log[|log| - 1].block else [])
  }

  predicate AllTaken(log: seq<Flush>) { forall i | 0 <= i < |log| :: log[i].taken }

  /** Nothing is lost exactly when every flush was taken. */
  lemma {:induction false} SentAllIff(log: seq<Flush>)
    requires forall i | 0 <= i < |log| :: log[i].block != []
    ensures |Sent(log)| <= |Offered(log)|
    ensures Sent(log) == Offered(log) <==> AllTaken(log)
  {
    if log != [] {
      var rest, last := log[..|log| - 1], log[|log| - 1];
      SentAllIff(rest);
      assert log == rest + [last];
      if Sent(log) == Offered(log) {
        assert last.taken && |Sent(rest)| == |Offered(rest)|;
        assert Sent(rest) == Sent(log)[..|Sent(rest)|] == Offered(log)[..|Sent(rest)|] == Offered(rest);
        assert AllTaken(rest);
      }
    }
  }

  /** At most one flush was added, and it was taken if and only if `ok`. */
  predicate Flushed(was: seq<Flush>, now: seq<Flush>, ok: bool) {
    && was <= now && |now| <= |was| + 1
    && (forall i | |was| <= i < |now| :: now[i].taken == ok)
    && (!ok ==> |now| == |was| + 1)
  }

  /** Every flush added since `was` was of a full buffer. */
  predicate FullSince(was: seq<Flush>, now: seq<Flush>, bufLen: nat) {
    was <= now && forall i | |was| <= i < |now| :: |now[i].block| == bufLen
  }

  lemma FullTwice(a: seq<Flush>, b: seq<Flush>, c: seq<Flush>, bufLen: nat)
    requires FullSince(a, b, bufLen) && FullSince(b, c, bufLen)
    ensures FullSince(a, c, bufLen)
  {
    assert forall i | |a| <= i < |b| :: c[i] == b[i];
  }

  lemma {:induction false} OfferedSince(was: seq<Flush>, now: seq<Flush>, bufLen: nat)
    requires FullSince(was, now, bufLen)
    ensures |Offered(now)| == |Offered(was)| + (|now| - |was|) * bufLen
    decreases |now|
  {
    if |was| < |now| {
      var front := now[..|now| - 1];
      FrontIsFull(was, now, bufLen);
      OfferedSince(was, front, bufLen);
      OneMore(|front| - |was|, bufLen);
    } else {
      assert now == was;
    }
  }

  lemma FrontIsFull(was: seq<Flush>, now: seq<Flush>, bufLen: nat)
    requires FullSince(was, now, bufLen) && |was| < |now|
    ensures FullSince(was, now[..|now| - 1], bufLen)
    ensures |Offered(now)| == |Offered(now[..|now| - 1])| + bufLen
  {
    var front, last := now[..|now| - 1], now[|now| - 1];
    assert Offered(now) == Offered(front) + last.block;
    hide Offered;
    assert forall i | 0 <= i < |front| :: front[i] == now[i];
  }

  lemma OneMore(k: nat, n: nat)
    ensures (k + 1) * n == k * n + n
  {
  }

  datatype Mode = Flushing | Direct | Listing | Discarding

  datatype Target = Client | File | Ota

  class Output {
    const bufLen: nat
    const outT: array?<bv8>
    const toList: bool
    const client: bool
    const file: bool
    const ota: bool
    /** What the writers will do: whether a target takes the whole of the n-th flush. */
    const takes: (Target, nat) -> bool
    var bufWrite: nat
    var list: seq<bv8>
    var log: seq<Flush>

    constructor (bufLen: nat, outT: array?<bv8>, toList: bool, client: bool, file: bool, ota: bool,
                 takes: (Target, nat) -> bool)
      requires bufLen > 0 && (outT != null && (client || file || ota) ==> bufLen <= outT.Length)
      ensures Valid() && this.outT == outT && this.bufLen == bufLen && this.takes == takes
      ensures this.toList == toList && this.client == client && this.file == file && this.ota == ota
      ensures bufWrite == 0 && list == [] && log == []
    {
      this.bufLen, this.outT, this.toList := bufLen, outT, toList;
      this.client, this.file, this.ota, this.takes := client, file, ota, takes;
      bufWrite, list, log := 0, [], [];
    }

    function Mode(): (m: Mode) {
      if outT != null then (if ota || client || file then Flushing else Direct)
      else if toList then Listing else Discarding
    }

    ghost predicate Valid()
      reads this
    {
      && bufLen > 0
      && (Mode() == Flushing ==> bufLen <= outT.Length && bufWrite < bufLen)
      && (Mode() != Flushing ==> bufWrite == 0 && log == [])
      && LogValid()
    }

    /** Blocks are what fits the buffer, and were taken by whoever would take them. */
    ghost predicate LogValid()
      reads this
    {
      forall i | 0 <= i < |log| :: 0 < |log[i].block| <= bufLen && log[i].taken == Accepts(i)
    }

    /** Whether one of the targets takes the n-th flush. */
    function Accepts(n: nat): (ok: bool) {
      (client && takes(Client, n)) || (file && takes(File, n)) || (ota && takes(Ota, n))
    }

    /** Everything emitted so far, in order; `pos` is the write position of a plain array. */
    ghost function Emitted(pos: nat): (s: seq<bv8>)
      requires Valid() && (Mode() == Direct ==> pos <= outT.Length)
      reads this, outT
    {
      match Mode()
      case Flushing => Offered(log) + outT[..bufWrite]
      case Direct => outT[..pos]
      case Listing => list
      case Discarding => []
    }

    method WriteOutput() returns (ok: bool)
      requires Mode() == Flushing && bufLen > 0 && bufWrite <= bufLen <= outT.Length
      requires LogValid()
      modifies this`bufWrite, this`log
      ensures Valid() && bufWrite == 0
      ensures old(bufWrite) == 0 ==> ok && log == old(log)
      ensures old(bufWrite) > 0 ==> log == old(log) + [Flush(old(outT[..bufWrite]), ok)]
      ensures Offered(log) == Offered(old(log)) + old(outT[..bufWrite])
    {
      var write := bufWrite;
      bufWrite := 0;
      if write == 0 {
        return true;
      }
      var n := |log|;
      if client && takes(Client, n) {
        ok := true;
      } else if file && takes(File, n) {
        ok := true;
      } else if ota && takes(Ota, n) {
        ok := true;
      } else {
        ok := false;
      }
      ghost var was := log;
      log := log + [Flush(outT[..write], ok)];
      assert log[..|log| - 1] == was;
    }

    /** The buffered form: a full buffer goes out at once. */
    method SetBuffered(val: bv8) returns (ok: bool)
      requires Valid() && Mode() == Flushing
      modifies this`bufWrite, this`log, outT
      ensures Valid() && Flushed(old(log), log, ok) && FullSince(old(log), log, bufLen)
      ensures Emitted(0) == old(Emitted(0)) + [val]
    {
      hide Accepts;
      ghost var was := outT[..bufWrite];
      ghost var before := log;
      outT[bufWrite] := val;
      bufWrite := bufWrite + 1;
      ok := true;
      assert outT[..bufWrite] == was + [val];
      assert Offered(before) + (was + [val]) == Offered(before) + was + [val];
      if bufWrite == bufLen {
        ok := WriteOutput();
        assert outT[..0] == [];
        assert Offered(log) + [] == Offered(log);
      }
    }

    method SetOutput(val: bv8, pos: nat) returns (ok: bool, next: nat)
      requires Valid() && (Mode() == Direct ==> pos < outT.Length)
      modifies this, outT
      ensures Valid() && (Mode() == Direct ==> next == pos + 1) && (Mode() != Direct ==> next == pos)
      ensures Mode() != Discarding ==> Emitted(next) == old(Emitted(pos)) + [val]
      ensures Mode() == Direct ==> outT[next..] == old(outT[pos..])[1..]
      ensures Flushed(old(log), log, ok) && FullSince(old(log), log, bufLen)
    {
      hide Offered, Accepts;
      ok, next := true, pos;
      if outT != null {
        if ota || client || file {
          ok := SetBuffered(val);
        } else {
          outT[pos] := val;
          next := pos + 1;
          assert outT[..next] == old(outT[..pos]) + [val];
        }
      } else if toList {
        list := list + [val];
      }
    }
  }

  // ---------------------------------------------------------------- encoding

  /** `now` continues `was` by a part of `text`; by all of it if `ok`. */
  predicate Continues(was: seq<bv8>, now: seq<bv8>, text: seq<bv8>, ok: bool) {
    was <= now <= was + text && (ok ==> now == was + text)
  }

  /** The flushes added since `was`: all taken if `ok`, otherwise all but the last. */
  predicate Grew(was: seq<Flush>, now: seq<Flush>, ok: bool) {
    && was <= now
    && (forall i | |was| <= i < |now| - 1 :: now[i].taken)
    && (|was| < |now| ==> now[|now| - 1].taken == ok)
    && (!ok ==> |was| < |now|)
  }

  lemma ContinuesTwice(a: seq<bv8>, b: seq<bv8>, c: seq<bv8>, s: seq<bv8>, t: seq<bv8>, ok: bool)
    requires b == a + s && Continues(b, c, t, ok)
    ensures Continues(a, c, s + t, ok)
  {
    assert a + s + t == a + (s + t);
  }

  lemma ContinuesPart(a: seq<bv8>, b: seq<bv8>, s: seq<bv8>, t: seq<bv8>)
    requires Continues(a, b, s, false)
    ensures Continues(a, b, s + t, false)
  {
    assert a + s <= a + (s + t);
  }

  lemma GrewTwice(a: seq<Flush>, b: seq<Flush>, c: seq<Flush>, ok: bool)
    requires Grew(a, b, true) && Grew(b, c, ok)
    ensures Grew(a, c, ok)
  {
    assert forall i | 0 <= i < |b| :: c[i] == b[i];
  }

  method EmitTwo(c: bv8, d: bv8, out: Output, pos: nat) returns (ok: bool, next: nat)
    requires out.Valid() && (out.Mode() == Direct ==> pos + 2 <= out.outT.Length)
    modifies out, out.outT
    ensures out.Valid() && Grew(old(out.log), out.log, ok)
    ensures out.Mode() == Direct ==> ok && next == pos + 2 && out.outT[next..] == old(out.outT[pos + 2..])
    ensures out.Mode() != Direct ==> next == pos
    ensures out.Mode() != Discarding ==> Continues(old(out.Emitted(pos)), out.Emitted(next), [c, d], ok)
  {
    hide Output.Emitted;
    ghost var start := if out.Mode() == Discarding then [] else out.Emitted(pos);
    ok, next := out.SetOutput(c, pos);
    assert start + [c] <= start + [c, d];
    if !ok {
      return;
    }
    ok, next := out.SetOutput(d, next);
    assert start + [c] + [d] == start + [c, d];
    assert out.Mode() == Direct ==> old(out.outT[pos..])[1..][1..] == old(out.outT[pos + 2..]);
  }

  method EmitFour(q: seq<bv8>, out: Output, pos: nat) returns (ok: bool, next: nat)
    requires out.Valid() && |q| == 4 && (out.Mode() == Direct ==> pos + 4 <= out.outT.Length)
    modifies out, out.outT
    ensures out.Valid() && Grew(old(out.log), out.log, ok)
    ensures out.Mode() == Direct ==> ok && next == pos + 4 && out.outT[next..] == old(out.outT[pos + 4..])
    ensures out.Mode() != Direct ==> next == pos
    ensures out.Mode() != Discarding ==> Continues(old(out.Emitted(pos)), out.Emitted(next), q, ok)
  {
    hide Output.Emitted, Output.Valid, Continues, Grew;
    ghost var log0 := out.log;
    ghost var start := if out.Mode() == Discarding then [] else out.Emitted(pos);
    assert q == [q[0], q[1]] + [q[2], q[3]];
    ok, next := EmitTwo(q[0], q[1], out, pos);
    if !ok {
      if out.Mode() != Discarding {
        ContinuesPart(start, out.Emitted(next), [q[0], q[1]], [q[2], q[3]]);
      }
      return;
    }
    ghost var log1 := out.log;
    ghost var middle := if out.Mode() == Discarding then [] else out.Emitted(next);
    ghost var tail := if out.Mode() == Direct then out.outT[next..] else [];
    ok, next := EmitTwo(q[2], q[3], out, next);
    GrewTwice(log0, log1, out.log, ok);
    if out.Mode() != Discarding {
      EmittedAll(start, middle, [q[0], q[1]]);
      ContinuesTwice(start, middle, out.Emitted(next), [q[0], q[1]], [q[2], q[3]], ok);
    }
    assert out.Mode() == Direct ==> tail[2..] == old(out.outT[pos + 4..]);
  }

  lemma EmittedAll(a: seq<bv8>, b: seq<bv8>, s: seq<bv8>)
    requires Continues(a, b, s, true)
    ensures b == a + s
  {
  }

  method EncodeRest(rest: seq<bv8>, out: Output, pos: nat) returns (ok: bool, next: nat)
    requires out.Valid() && rest != [] && (out.Mode() == Direct ==> pos + 4 <= out.outT.Length)
    modifies out, out.outT
    ensures out.Valid()
    ensures |rest| > 2 ==> !ok && out.log == old(out.log) && out.bufWrite == old(out.bufWrite) && out.list == old(out.list)
    ensures |rest| <= 2 ==> Grew(old(out.log), out.log, ok)
    ensures |rest| <= 2 && out.Mode() == Direct ==> ok && next == pos + 4 && out.outT[next..] == old(out.outT[pos + 4..])
    ensures out.Mode() != Direct ==> next == pos
    ensures |rest| <= 2 && out.Mode() != Discarding ==>
              Continues(old(out.Emitted(pos)), out.Emitted(next), LastBlock(rest), ok)
  {
    if |rest| > 2 {
      return false, pos;
    }
    var q := if |rest| == 1 then [EncChar(First(rest[0])), EncChar((rest[0] & 0x03) << 4), PAD, PAD]
             else [EncChar(First(rest[0])), EncChar(Second(rest[0], rest[1])), EncChar((rest[1] & 0x0f) << 2), PAD];
    assert q == LastBlock(rest);
    ok, next := EmitFour(q, out, pos);
  }

  lemma StepContinues(start: seq<bv8>, here: seq<bv8>, now: seq<bv8>, block: seq<bv8>, rest: seq<bv8>, all: seq<bv8>, ok: bool)
    requires Continues(here, now, block, ok) && start <= here && here + (block + rest) == start + all
    ensures if ok then start <= now && now + rest == start + all else Continues(start, now, all, false)
  {
    assert here + (block + rest) == here + block + rest;
  }

  /** The whole blocks of the input; `i` is how far it came. */
  method EncodeBlocks(src: seq<bv8>, out: Output) returns (ok: bool, pos: nat, i: nat)
    requires out.Valid() && (out.Mode() == Direct ==> |Encode(src)| <= out.outT.Length)
    modifies out, out.outT
    ensures out.Valid() && Grew(old(out.log), out.log, ok) && i <= |src|
    ensures out.Mode() != Direct ==> pos == 0
    ensures out.Mode() == Direct ==>
              ok && pos + |Encode(src[i..])| == |Encode(src)| && out.outT[pos..] == old(out.outT[pos..])
    ensures ok ==> |src| - i < 3 && (i < |src| ==> |Encode(src[i..])| == 4)
    ensures out.Mode() != Discarding ==>
              if ok then
                && old(out.Emitted(0)) <= out.Emitted(pos)
                && out.Emitted(pos) + Encode(src[i..]) == old(out.Emitted(0)) + Encode(src)
              else Continues(old(out.Emitted(0)), out.Emitted(pos), Encode(src), false)
  {
    hide Output.Emitted, Output.Valid, Grew, Continues, Block, EncodedLength;
    ok, pos, i := true, 0, 0;
    ghost var log0 := out.log;
    ghost var start := if out.Mode() == Discarding then [] else out.Emitted(0);
    GrewNothing(log0);
    assert src[0..] == src;
    while |src| - i >= 3
      invariant ok && i <= |src| && out.Valid() && Grew(log0, out.log, true)
      invariant out.Mode() != Direct ==> pos == 0
      invariant out.Mode() == Direct ==>
                  pos + |Encode(src[i..])| == |Encode(src)| && out.outT[pos..] == old(out.outT[pos..])
      invariant out.Mode() != Discarding ==> out.Emitted(pos) + Encode(src[i..]) == start + Encode(src)
      invariant out.Mode() != Discarding ==> start <= out.Emitted(pos)
    {
      var block := Block(src[i], src[i + 1], src[i + 2]);
      ghost var log1 := out.log;
      ghost var here := if out.Mode() == Discarding then [] else out.Emitted(pos);
      ghost var rest := Encode(src[i + 3..]);
      assert src[i..][3..] == src[i + 3..];
      assert Encode(src[i..]) == block + rest;
      ghost var tail := if out.Mode() == Direct then out.outT[pos..] else [];
      ok, pos := EmitFour(block, out, pos);
      GrewTwice(log0, log1, out.log, ok);
      if out.Mode() != Discarding {
        StepContinues(start, here, out.Emitted(pos), block, rest, Encode(src), ok);
      }
      if !ok {
        return;
      }
      assert out.Mode() == Direct ==> tail[4..] == out.outT[pos..];
      i := i + 3;
    }
  }

  lemma GrewNothing(log: seq<Flush>)
    ensures Grew(log, log, true)
  {
  }

  /** Hands the rest of the buffer to the writers, when there is one. */
  method FlushRest(out: Output, writeAllRemaining: bool) returns (ok: bool)
    requires out.Valid()
    modifies out`bufWrite, out`log
    ensures out.Valid() && Grew(old(out.log), out.log, ok)
    ensures out.Mode() == Flushing || out.Mode() == Listing ==> out.Emitted(0) == old(out.Emitted(0))
    ensures out.Mode() != Flushing ==> ok
    ensures writeAllRemaining ==> out.bufWrite == 0
    ensures ok <==> out.log == old(out.log) || (out.log != [] && out.log[|out.log| - 1].taken)
  {
    ok := true;
    if writeAllRemaining && out.bufWrite > 0 {
      ok := out.WriteOutput();
      assert out.outT[..0] == [];
    }
  }

  /** The blocks and the rest, without the final flush. */
  method EncodeAll(src: seq<bv8>, out: Output) returns (ok: bool, pos: nat)
    requires out.Valid() && (out.Mode() == Direct ==> |Encode(src)| <= out.outT.Length)
    modifies out, out.outT
    ensures out.Valid() && Grew(old(out.log), out.log, ok) && (!ok ==> out.Mode() == Flushing)
    ensures out.Mode() != Direct ==> pos == 0
    ensures out.Mode() == Direct ==> pos == |Encode(src)| && out.outT[pos..] == old(out.outT[pos..])
    ensures out.Mode() != Discarding ==> Continues(old(out.Emitted(0)), out.Emitted(pos), Encode(src), ok)
  {
    hide First, Second, Third, Fourth, EncChar, Grew, Output.Emitted, Output.LogValid;
    ghost var log0 := out.log;
    ghost var start := if out.Mode() == Discarding then [] else out.Emitted(0);
    var i: nat;
    ok, pos, i := EncodeBlocks(src, out);
    if !ok {
      NotOkMeansFlush(log0, out);
      return;
    }
    ghost var log1 := out.log;
    ghost var here := if out.Mode() == Discarding then [] else out.Emitted(pos);
    var rest := src[i..];
    ghost var text := Encode(rest);
    ghost var tail := if out.Mode() == Direct then out.outT[pos..] else [];
    if |src| - i > 0 {
      ok, pos := EncodeRest(rest, out, pos);
      GrewTwice(log0, log1, out.log, ok);
      if out.Mode() != Discarding {
        RestContinues(start, here, out.Emitted(pos), text, Encode(src), ok);
      }
      if !ok {
        NotOkMeansFlush(log0, out);
        return;
      }
      assert out.Mode() == Direct ==> tail[4..] == out.outT[pos..];
    } else {
      assert here + text == here;
    }
  }

  lemma RestContinues(start: seq<bv8>, here: seq<bv8>, now: seq<bv8>, text: seq<bv8>, all: seq<bv8>, ok: bool)
    requires start <= here && here + text == start + all && Continues(here, now, text, ok)
    ensures Continues(start, now, all, ok)
  {
  }

  method EncodeInto(src: seq<bv8>, out: Output, writeAllRemaining: bool) returns (ok: bool)
    requires out.Valid() && (out.Mode() == Direct ==> |Encode(src)| <= out.outT.Length)
    modifies out, out.outT
    ensures out.Valid() && Grew(old(out.log), out.log, ok)
    ensures out.Mode() == Direct ==>
              out.outT[..|Encode(src)|] == Encode(src) && out.outT[|Encode(src)|..] == old(out.outT[|Encode(src)|..])
    ensures out.Mode() == Flushing || out.Mode() == Listing ==>
              Continues(old(out.Emitted(0)), out.Emitted(0), Encode(src), ok)
    ensures out.Mode() != Flushing ==> ok
    ensures ok && writeAllRemaining ==> out.bufWrite == 0
  {
    hide Encode, Grew, Output.LogValid, Offered;
    ghost var log0 := out.log;
    var pos;
    ok, pos := EncodeAll(src, out);
    if !ok {
      return;
    }
    if out.Mode() == Direct {
      assert out.Emitted(pos) == [] + Encode(src) == Encode(src);
    }
    ghost var log2 := out.log;
    ok := FlushRest(out, writeAllRemaining);
    GrewTwice(log0, log2, out.log, ok);
  }

  lemma NotOkMeansFlush(was: seq<Flush>, out: Output)
    requires out.Valid() && Grew(was, out.log, false)
    ensures out.Mode() == Flushing
  {
  }
}
