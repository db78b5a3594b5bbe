/** The tolerant decoder over the pluggable output. */
module Base64Decoder {
  import opened Base64Spec
  import opened Base64Codec

  lemma BlocksUnfold(q: seq<bv8>)
    requires |q| % 4 == 0 && q != []
    ensures |q| >= 4
    ensures var pad := CountPads(q[..4]);
            var bytes := BlockBytes(Values(q[..4]), pad);
            DecodeBlocks(q) ==
            if pad > 0 then Decoded(bytes, pad <= 2)
            else Decoded(bytes + DecodeBlocks(q[4..]).bytes, DecodeBlocks(q[4..]).ok)
  {
    hide DecChar, CountPads, Values, BlockBytes;
  }

  lemma FilterSnoc(a: seq<bv8>, c: bv8)
    ensures Filter(a + [c]) == Filter(a) + (if DecChar(c) == INVALID then [] else [c])
  {
    FilterOfConcat(a, [c]);
    assert [c][1..] == [];
  }

  lemma CountPadsSnoc(q: seq<bv8>, c: bv8)
    ensures CountPads(q + [c]) == CountPads(q) + (if c == PAD then 1 else 0)
  {
    if q != [] {
      assert (q + [c])[1..] == q[1..] + [c];
    } else {
      assert q + [c] == [c] && [c][1..] == [];
    }
  }

  /** The output of one block; the decoder does not look at what became of it. */
  method EmitBlock(b: seq<bv8>, pad: nat, out: Output, pos: nat) returns (next: nat)
    requires out.Valid() && |b| == 4
    requires out.Mode() == Direct ==> pos + |BlockBytes(b, pad)| <= out.outT.Length
    modifies out, out.outT
    ensures out.Valid() && FullSince(old(out.log), out.log, out.bufLen)
    ensures out.Mode() == Direct ==> next == pos + |BlockBytes(b, pad)|
    ensures out.Mode() == Direct ==> out.outT[next..] == old(out.outT[pos..])[|BlockBytes(b, pad)|..]
    ensures out.Mode() != Direct ==> next == pos
    ensures out.Mode() != Discarding ==> out.Emitted(next) == old(out.Emitted(pos)) + BlockBytes(b, pad)
  {
    hide Output.Emitted, Byte0, Byte1, Byte2;
    ghost var start := if out.Mode() == Discarding then [] else out.Emitted(pos);
    var ok;
    ok, next := out.SetOutput(Byte0(b[0], b[1]), pos);
    if pad < 2 {
      ok, next := out.SetOutput(Byte1(b[1], b[2]), next);
      assert start + [Byte0(b[0], b[1])] + [Byte1(b[1], b[2])] == start + [Byte0(b[0], b[1]), Byte1(b[1], b[2])];
      if pad == 0 {
        ok, next := out.SetOutput(Byte2(b[2], b[3]), next);
        assert start + [Byte0(b[0], b[1]), Byte1(b[1], b[2])] + [Byte2(b[2], b[3])] == start + BlockBytes(b, pad);
      }
    }
  }

  /** The number of bytes that are not foreign. */
  method CountSignificant(dec: array<bv8>, src: seq<bv8>) returns (count: nat)
    requires IsDecTable(dec)
    ensures count == |Filter(src)|
  {
    hide DecChar;
    count := 0;
    assert src[..0] == [];
    for i := 0 to |src|
      invariant count == |Filter(src[..i])|
    {
      assert src[..i + 1] == src[..i] + [src[i]];
      FilterSnoc(src[..i], src[i]);
      if dec[src[i] as int] != INVALID {
        count := count + 1;
      }
    }
    assert src[..|src|] == src;
  }

  lemma PrefixOfSum(a: seq<bv8>, b: seq<bv8>, s: seq<bv8>)
    requires s == a + b
    ensures a <= s
  {
  }

  lemma FilterPrefix(s: seq<bv8>, k: nat)
    requires k <= |s|
    ensures Filter(s[..k]) <= Filter(s)
  {
    hide Filter;
    assert s[..k] + s[k..] == s;
    FilterOfConcat(s[..k], s[k..]);
    PrefixOfSum(Filter(s[..k]), Filter(s[k..]), Filter(s));
  }

  /** The significant characters of `all[..i]` are the first `done` of `q`, whose blocks have
      been put out, and those of the unfinished block. */
  ghost predicate Consumed(all: seq<bv8>, i: nat, q: seq<bv8>, done: nat, block: seq<bv8>, pad: nat) {
    && i <= |all| && Filter(all) == q && done + |block| <= |q|
    && Filter(all[..i]) == q[..done + |block|]
    && block == Values(q[done..done + |block|]) && pad == CountPads(q[done..done + |block|])
  }

  /** A foreign character changes nothing; any other goes into the block. */
  lemma ConsumeOne(all: seq<bv8>, i: nat, q: seq<bv8>, done: nat, block: seq<bv8>, pad: nat)
    requires Consumed(all, i, q, done, block, pad) && i < |all| && |block| < 4
    ensures
      var val := all[i];
      if DecChar(val) == INVALID then Consumed(all, i + 1, q, done, block, pad)
      else
        var at := done + |block|;
        var b := block + [DecChar(val)];
        var p := pad + (if val == PAD then 1 else 0);
        && done + |b| <= |q|
        && if |block| < 3 then Consumed(all, i + 1, q, done, b, p)
        else
          && Filter(all[..i + 1]) == q[..done + 4]
          && b == Values(q[done..done + 4]) && p == CountPads(q[done..done + 4])
  {
    hide DecChar, Filter, CountPads;
    var val := all[i];
    assert all[..i + 1] == all[..i] + [val];
    FilterSnoc(all[..i], val);
    FilterPrefix(all, i + 1);
    if DecChar(val) != INVALID {
      var at := done + |block|;
      assert q[..at + 1] == q[..at] + [val];
      assert q[done..at + 1] == q[done..at] + [val];
      CountPadsSnoc(q[done..at], val);
    }
  }

  /** Puts out a complete block; what is still to come shrinks by it, or ends with it. */
  method FinishBlock(block: seq<bv8>, pad: nat, out: Output, pos: nat, ghost q: seq<bv8>) returns (next: nat)
    requires out.Valid() && |q| % 4 == 0 && |q| >= 4
    requires block == Values(q[..4]) && pad == CountPads(q[..4])
    requires out.Mode() == Direct ==> pos + |DecodeBlocks(q).bytes| <= out.outT.Length
    modifies out, out.outT
    ensures out.Valid() && FullSince(old(out.log), out.log, out.bufLen)
    ensures out.Mode() != Direct ==> next == pos
    ensures
      var rest := if pad > 0 then Decoded([], pad <= 2) else DecodeBlocks(q[4..]);
      && DecodeBlocks(q).ok == rest.ok
      && (out.Mode() == Direct ==> next + |rest.bytes| == pos + |DecodeBlocks(q).bytes|)
      && (out.Mode() != Discarding ==> out.Emitted(next) + rest.bytes == old(out.Emitted(pos)) + DecodeBlocks(q).bytes)
  {
    hide DecChar, Output.Emitted, Output.Valid, DecodeBlocks, BlockBytes, CountPads, Values;
    BlocksUnfold(q);
    ghost var here := if out.Mode() == Discarding then [] else out.Emitted(pos);
    ghost var bytes := BlockBytes(block, pad);
    ghost var rest := if pad > 0 then [] else DecodeBlocks(q[4..]).bytes;
    assert here + bytes + rest == here + (bytes + rest);
    assert bytes + [] == bytes;
    next := EmitBlock(block, pad, out, pos);
  }

  /** The decoding loop; `bad` is whether it met a block with more than two pads. */
  method DecodeLoop(dec: array<bv8>, src: seq<bv8>, extraPad: nat, out: Output) returns (bad: bool, pos: nat)
    requires IsDecTable(dec) && out.Valid() && dec != out.outT
    requires extraPad == MissingPads(|Filter(src)|)
    requires out.Mode() == Direct ==> |DecodeBlocks(Completed(src)).bytes| <= out.outT.Length
    modifies out, out.outT
    ensures out.Valid() && FullSince(old(out.log), out.log, out.bufLen)
    ensures bad == !DecodeBlocks(Completed(src)).ok
    ensures out.Mode() == Direct ==> pos == |DecodeBlocks(Completed(src)).bytes|
    ensures out.Mode() != Direct ==> pos == 0
    ensures out.Mode() != Discarding ==>
              out.Emitted(pos) == old(out.Emitted(0)) + DecodeBlocks(Completed(src)).bytes
  {
    hide DecChar, Output.Emitted, Output.Valid, DecodeBlocks, MissingPads, BlockBytes, CountPads, Consumed, Filter;
    ghost var all := src + Pads(extraPad);
    ghost var q := Completed(src);
    ghost var full := DecodeBlocks(q);
    ghost var start := if out.Mode() == Discarding then [] else out.Emitted(0);
    ghost var done: nat := 0;
    FilterOfPads(extraPad);
    FilterOfConcat(src, Pads(extraPad));
    NothingConsumed(all, q);
    var pad, block, i := 0, [], 0;
    pos := 0;
    assert q[0..] == q;
    while i < |src| + extraPad
      invariant IsDecTable(dec) && out.Valid() && FullSince(old(out.log), out.log, out.bufLen)
      invariant i <= |all| == |src| + extraPad && Consumed(all, i, q, done, block, pad)
      invariant |q| % 4 == 0 && done % 4 == 0 && done + |block| <= |q| && |block| < 4
      invariant pad == 0 || block != []
      invariant DecodeBlocks(q[done..]).ok == full.ok
      invariant out.Mode() != Direct ==> pos == 0
      invariant out.Mode() == Direct ==> pos + |DecodeBlocks(q[done..]).bytes| == |full.bytes|
      invariant out.Mode() != Discarding ==> out.Emitted(pos) + DecodeBlocks(q[done..]).bytes == start + full.bytes
    {
      var val := if i >= |src| then PAD else src[i];
      assert all[i] == val;
      ConsumeOne(all, i, q, done, block, pad);
      var temp := dec[val as int];
      i := i + 1;
      if temp != INVALID {
        if val == PAD {
          pad := pad + 1;
        }
        block := block + [temp];
        if |block| == 4 {
          assert q[done..][..4] == q[done..done + 4] && q[done..][4..] == q[done + 4..];
          ghost var before := out.log;
          pos := FinishBlock(block, pad, out, pos, q[done..]);
          FullTwice(old(out.log), before, out.log, out.bufLen);
          if pad > 0 {
            bad := pad > 2;
            return;
          }
          done, block := done + 4, [];
          BlockDone(all, i, q, done);
        }
      }
    }
    bad := false;
    AllConsumed(all, q, done, block, pad);
    assert q[done..] == [];
    NoBlocksLeft();
  }

  lemma NothingConsumed(all: seq<bv8>, q: seq<bv8>)
    requires Filter(all) == q
    ensures Consumed(all, 0, q, 0, [], 0)
  {
    assert all[..0] == [] && q[..0] == [] && q[0..0] == [];
  }

  lemma BlockDone(all: seq<bv8>, i: nat, q: seq<bv8>, done: nat)
    requires i <= |all| && Filter(all) == q && done <= |q|
    requires Filter(all[..i]) == q[..done]
    ensures Consumed(all, i, q, done, [], 0)
  {
    assert q[done..done] == [];
  }

  lemma AllConsumed(all: seq<bv8>, q: seq<bv8>, done: nat, block: seq<bv8>, pad: nat)
    requires Consumed(all, |all|, q, done, block, pad) && |q| % 4 == 0 && done % 4 == 0 && |block| < 4
    ensures block == [] && done == |q|
  {
    assert all[..|all|] == all;
  }

  lemma NoBlocksLeft()
    ensures DecodeBlocks([]) == Decoded([], true)
  {
  }

  /** `m` bytes beyond those already flushed make so many full buffers and leave so many bytes. */
  lemma BufferIs(was: seq<Flush>, now: seq<Flush>, bufLen: nat, m: nat, left: nat)
    requires FullSince(was, now, bufLen) && left < bufLen && |Offered(now)| + left == |Offered(was)| + m
    ensures |now| - |was| == m / bufLen && left == m % bufLen
  {
    OfferedSince(was, now, bufLen);
    QuotientIs(m, bufLen, |now| - |was|, left);
  }

  lemma QuotientIs(m: nat, n: nat, q: nat, r: nat)
    requires r < n && m == q * n + r
    ensures m / n == q && m % n == r
  {
    var d := q - m / n;
    assert d * n == m % n - r;
    assert (d > 0 ==> d * n >= n) && (d < 0 ==> d * n + n <= 0);
  }

  /** How many flushes `m` bytes take. */
  function Flushes(m: nat, bufLen: nat): (n: nat)
    requires bufLen > 0
  {
    m / bufLen + if m % bufLen == 0 then 0 else 1
  }

  /** Decodes the text. Bytes go out in order whatever the writers do; the answer is the text's
      own validity and the fate of the final flush of a buffer that is not full: a refused flush
      of a full buffer is not reported. */
  method DecodeInto(dec: array<bv8>, src: seq<bv8>, out: Output) returns (ret: bool)
    requires IsDecTable(dec) && out.Valid() && dec != out.outT
    requires out.Mode() == Direct ==> |Decode(src).bytes| <= out.outT.Length
    modifies out, out.outT
    ensures out.Valid() && old(out.log) <= out.log
    ensures out.Mode() == Direct ==> out.outT[..|Decode(src).bytes|] == Decode(src).bytes
    ensures out.Mode() == Flushing || out.Mode() == Listing ==>
              out.Emitted(0) == old(out.Emitted(0)) + Decode(src).bytes
    ensures ret ==> Decode(src).ok
    ensures out.Mode() != Flushing ==> ret == Decode(src).ok
    ensures out.Mode() == Flushing && Decode(src).ok ==>
              var m := old(out.bufWrite) + |Decode(src).bytes|;
              && out.bufWrite == 0 && |out.log| == |old(out.log)| + Flushes(m, out.bufLen)
              && (ret <==> m % out.bufLen == 0 || out.Accepts(|old(out.log)| + m / out.bufLen))
  {
    hide DecodeBlocks, Completed, MissingPads, Output.Accepts, Offered;
    ret := false;
    ghost var start := if out.Mode() == Discarding then [] else out.Emitted(0);
    ghost var log0 := out.log;
    var count := CountSignificant(dec, src);
    if count == 0 {
      assert start + [] == start;
      return;
    }
    var bad, pos := DecodeLoop(dec, src, MissingPads(count), out);
    if bad {
      return;
    }
    if out.Mode() == Flushing {
      BufferIs(log0, out.log, out.bufLen, old(out.bufWrite) + |Decode(src).bytes|, out.bufWrite);
    }
    if out.bufWrite > 0 {
      ret := out.WriteOutput();
      assert out.outT[..0] == [];
      assert out.log[|out.log| - 1].taken == ret;
    } else {
      ret := true;
    }
  }
}
