/** The codec's entry points, each with its output fixed. */
module Base64Entry {
  import opened Base64Spec
  import opened Base64Codec
  import opened Base64Decoder

  const DEFAULT_BUF_LEN: nat := 1024

  /** A C string ends before the first NUL. */
  function UpToNul(s: seq<bv8>): (r: seq<bv8>) {
    if s == [] || s[0] == 0 then [] else [s[0]] + UpToNul(s[1..])
  }

  lemma {:induction false} UpToNulOf(s: seq<bv8>, rest: seq<bv8>)
    requires (forall i | 0 <= i < |s| :: s[i] != 0) && rest != [] && rest[0] == 0
    ensures UpToNul(s + rest) == s
  {
    if s == [] {
      assert s + rest == rest;
    } else {
      assert (s + rest)[1..] == s[1..] + rest;
      UpToNulOf(s[1..], rest);
    }
  }

  method EncodeToString(src: seq<bv8>) returns (str: seq<bv8>)
    ensures str == Encode(src)
  {
    EncodeLength(src);
    EncodeIsClean(src);
    var encoded := new bv8[EncodedLength(|src|) + 1](_ => 0);
    var out := new Output(DEFAULT_BUF_LEN, encoded, false, false, false, false, (_: Target, _: nat) => false);
    ghost var n := |Encode(src)|;
    var zeros := encoded[n..];
    var ok := EncodeInto(src, out, true);
    str := UpToNul(encoded[..]);
    assert encoded[..] == Encode(src) + zeros;
    UpToNulOf(Encode(src), zeros);
  }

  /** `takes(n)` is whether the client takes all of the n-th block. The answer is true
      exactly when it took every block, and then it has the whole encoding. */
  method EncodeToClient(data: seq<bv8>, takes: nat -> bool) returns (ret: bool, log: seq<Flush>)
    ensures forall i | 0 <= i < |log| :: 0 < |log[i].block| <= DEFAULT_BUF_LEN && log[i].taken == takes(i)
    ensures Offered(log) <= Encode(data)
    ensures ret <==> AllTaken(log)
    ensures ret <==> Sent(log) == Encode(data)
  {
    var buf := new bv8[DEFAULT_BUF_LEN](_ => 0);
    var out := new Output(DEFAULT_BUF_LEN, buf, false, true, false, false, (_: Target, n: nat) => takes(n));
    assert out.Emitted(0) == [];
    ret := EncodeInto(data, out, true);
    log := out.log;
    assert [] + Encode(data) == Encode(data);
    assert out.outT[..0] == [];
    assert Offered(log) <= out.Emitted(0);
    assert forall i | 0 <= i < |log| :: log[i].taken == out.Accepts(i);
    SentAllIff(log);
    if ret {
      assert Offered(log) + [] == Offered(log);
    } else {
      assert !log[|log| - 1].taken;
    }
  }

  method DecodeToArray(dec: array<bv8>, src: seq<bv8>) returns (ok: bool, val: seq<bv8>)
    requires IsDecTable(dec)
    ensures ok == Decode(src).ok && val == Decode(src).bytes
  {
    var out := new Output(DEFAULT_BUF_LEN, null, true, false, false, false, (_: Target, _: nat) => false);
    ok := DecodeInto(dec, src, out);
    val := out.list;
    assert [] + Decode(src).bytes == Decode(src).bytes;
  }

  /** The answer for `n` bytes of valid text: what the file says of the last buffer, unless that
      one is full. */
  predicate Answer(n: nat, bufLen: nat, takes: nat -> bool)
    requires bufLen > 0
  {
    n % bufLen == 0 || takes(n / bufLen)
  }

  /** The file takes every buffer. */
  ghost predicate Arrives(n: nat, bufLen: nat, takes: nat -> bool)
    requires bufLen > 0
  {
    forall i: nat | i < Flushes(n, bufLen) :: takes(i)
  }

  /** What decoding answers, and when the bytes are all in the file. */
  method DecodeToFile(dec: array<bv8>, src: seq<bv8>, bufLen: nat, takes: nat -> bool) returns (ret: bool, log: seq<Flush>)
    requires IsDecTable(dec) && bufLen > 0
    ensures forall i | 0 <= i < |log| :: 0 < |log[i].block| <= bufLen && log[i].taken == takes(i)
    ensures ret <==> Decode(src).ok && Answer(|Decode(src).bytes|, bufLen, takes)
    ensures Decode(src).ok ==> Offered(log) == Decode(src).bytes && |log| == Flushes(|Decode(src).bytes|, bufLen)
    ensures Decode(src).ok ==>
              && (AllTaken(log) <==> Arrives(|Decode(src).bytes|, bufLen, takes))
              && (Sent(log) == Decode(src).bytes <==> AllTaken(log))
  {
    hide Decode, IsDecTable, Offered, Sent, Flushes, Arrives, AllTaken;
    var buf := new bv8[bufLen](_ => 0);
    var out := new Output(bufLen, buf, false, false, true, false, (_: Target, n: nat) => takes(n));
    NothingOffered();
    assert out.Emitted(0) == [];
    ret := DecodeInto(dec, src, out);
    log := out.log;
    assert forall i | 0 <= i < |log| :: log[i].taken == out.Accepts(i);
    SentAllIff(log);
    if Decode(src).ok {
      assert [] + Decode(src).bytes == Decode(src).bytes;
      assert out.outT[..0] == [] && Offered(log) + [] == Offered(log);
      ArrivesIff(log, |Decode(src).bytes|, bufLen, takes);
    }
  }

  lemma ArrivesIff(log: seq<Flush>, n: nat, bufLen: nat, takes: nat -> bool)
    requires bufLen > 0 && |log| == Flushes(n, bufLen)
    requires forall i | 0 <= i < |log| :: log[i].taken == takes(i)
    ensures AllTaken(log) <==> Arrives(n, bufLen, takes)
  {
    hide Flushes;
  }

  /** A true answer can be trusted, whatever the file does, exactly when the decoded text does not
      fill the buffer. */
  lemma AnswerIsTrueIff(n: nat, bufLen: nat)
    requires bufLen > 0
    ensures (forall takes: nat -> bool :: Answer(n, bufLen, takes) ==> Arrives(n, bufLen, takes)) <==> n < bufLen
  {
    if n < bufLen {
      SmallFits(n, bufLen);
    } else {
      var refusesFirst: nat -> bool := i => i != 0;
      FullFirst(n, bufLen);
      assert !refusesFirst(0);
      assert Answer(n, bufLen, refusesFirst) && !Arrives(n, bufLen, refusesFirst);
    }
  }

  lemma SmallFits(n: nat, bufLen: nat)
    requires n < bufLen
    ensures n / bufLen == 0 && n % bufLen == n && Flushes(n, bufLen) == if n == 0 then 0 else 1
  {
    QuotientIs(n, bufLen, 0, n);
  }

  lemma FullFirst(n: nat, bufLen: nat)
    requires n >= bufLen > 0
    ensures n / bufLen > 0 && Flushes(n, bufLen) > 0
  {
    if n / bufLen == 0 {
      QuotientIs(n, bufLen, 0, n % bufLen);
    }
  }

  /** And whatever the length, everything arrived exactly if the file took every buffer, of which
      a false answer denies the last. */
  lemma AnswerSpeaksOfLast(n: nat, bufLen: nat, takes: nat -> bool)
    requires bufLen > 0
    ensures Arrives(n, bufLen, takes) <==>
            Answer(n, bufLen, takes) && forall i: nat | i < n / bufLen :: takes(i)
  {
  }

  lemma NothingOffered()
    ensures Offered([]) == []
  {
  }

  /** A file that takes nothing is noticed when it refuses the last, partial buffer. */
  method LossOfRestIsReported() returns (ret: bool, log: seq<Flush>)
    ensures !ret && Sent(log) == [] && Offered(log) == [65, 66, 67]
  {
    var dec := CreateDecTable();
    var src := Encode([65, 66, 67]);
    RoundTripIff([65, 66, 67]);
    ret, log := DecodeToFile(dec, src, 2, _ => false);
    SentNothing(log);
  }

  /** A file that takes nothing, and a decoder that says it went well. */
  method LossGoesUnreported() returns (ret: bool, log: seq<Flush>)
    ensures ret && Sent(log) == [] && Offered(log) == [65, 66, 67]
  {
    var dec := CreateDecTable();
    var src := Encode([65, 66, 67]);
    RoundTripIff([65, 66, 67]);
    ret, log := DecodeToFile(dec, src, 1, _ => false);
    SentNothing(log);
  }

  lemma {:induction false} SentNothing(log: seq<Flush>)
    requires forall i | 0 <= i < |log| :: !log[i].taken
    ensures Sent(log) == []
  {
    if log != [] {
      SentNothing(log[..|log| - 1]);
    }
  }

  /** The library's length prediction, computed by walking the padding from the end. */
  method PredictDecodedLen(src: seq<bv8>) returns (n: int)
    ensures n == DecodedLen(src)
  {
    var len, i, pad := |src|, |src| - 1, 0;
    if len < 4 {
      return 0;
    }
    assert src[1..|src|] == src[1..];
    var more := true;
    while more
      invariant 0 <= i < |src| && 0 <= pad
      invariant more ==> pad == |src| - 1 - i && TrailingPads(src[1..]) == pad + TrailingPads(src[1..i + 1])
      invariant !more ==> pad == TrailingPads(src[1..])
      decreases more, i
    {
      if i > 0 {
        assert src[1..i + 1][..i - 1] == src[1..i] && src[1..i + 1][i - 1] == src[i];
        more := src[i] == PAD;
        i := i - 1;
        if more {
          pad := pad + 1;
        }
      } else {
        assert src[1..1] == [];
        more := false;
      }
    }
    n := 3 * (len / 4) - pad;
  }

  /** base64url into a caller's buffer, with a final NUL. The loop bound `len - 2` is
      unsigned; `false` stands for a read behind the end of the input. */
  method EncodeUrl(encoded: array<bv8>, text: seq<bv8>) returns (inBounds: bool)
    requires |text| < SIZE_MAX && encoded.Length >= EncodedLength(|text|)
    modifies encoded
    ensures inBounds <==> |text| >= 2
    ensures |UrlEncode(text)| < encoded.Length
    ensures inBounds ==> encoded[..|UrlEncode(text)| + 1] == UrlEncode(text) + [0]
  {
    hide UrlEncode, UrlQuad, EncodedLength;
    UrlEncodeFits(text);
    var bound := (|text| + SIZE_MAX - 2) % SIZE_MAX;
    var i, p := 0, 0;
    assert text[0..] == text;
    while i < bound
      invariant i <= |text| && (|text| >= 2 ==> bound == |text| - 2)
      invariant |text| < 2 ==> bound > 0 && i == 0
      invariant p + |UrlEncode(text[i..])| == |UrlEncode(text)| < encoded.Length
      invariant encoded[..p] + UrlEncode(text[i..]) == UrlEncode(text)
    {
      if i + 2 >= |text| {
        return false;
      }
      ghost var was := encoded[..p];
      ghost var rest := UrlEncode(text[i + 3..]);
      var quad := UrlQuad(text[i], text[i + 1], text[i + 2]);
      assert text[i..][3..] == text[i + 3..];
      UrlBlockFirst(text[i..]);
      PutFour(encoded, p, quad);
      assert was + (quad + rest) == was + quad + rest;
      p, i := p + 4, i + 3;
    }
    p := PutRest(encoded, p, text[i..]);
    encoded[p] := 0;
    inBounds := true;
    assert encoded[..p + 1] == encoded[..p] + [0];
  }

  /** One byte is too short. */
  method OneByteIsOverread() returns (inBounds: bool)
    ensures !inBounds
  {
    var encoded := new bv8[EncodedLength(1)](_ => 0);
    inBounds := EncodeUrl(encoded, [65]);
  }

  function UrlQuad(a: bv8, b: bv8, c: bv8): (q: seq<bv8>)
    ensures |q| == 4
  {
    [UrlChar(First(a)), UrlChar(Second(a, b)), UrlChar(Third(b, c)), UrlChar(Fourth(c))]
  }

  lemma UrlBlockFirst(x: seq<bv8>)
    requires |x| >= 3
    ensures UrlEncode(x) == UrlQuad(x[0], x[1], x[2]) + UrlEncode(x[3..])
  {
    hide First, Second, Third, Fourth, UrlChar;
  }

  method PutFour(encoded: array<bv8>, p: nat, quad: seq<bv8>)
    requires |quad| == 4 && p + 4 <= encoded.Length
    modifies encoded
    ensures encoded[..p + 4] == old(encoded[..p]) + quad
  {
    encoded[p], encoded[p + 1], encoded[p + 2], encoded[p + 3] := quad[0], quad[1], quad[2], quad[3];
    assert encoded[..p] == old(encoded[..p]);
  }

  /** The one or two bytes behind the whole blocks. */
  method PutRest(encoded: array<bv8>, p: nat, rest: seq<bv8>) returns (next: nat)
    requires |rest| < 3 && p + |UrlEncode(rest)| <= encoded.Length
    modifies encoded
    ensures next == p + |UrlEncode(rest)| && encoded[..next] == old(encoded[..p]) + UrlEncode(rest)
  {
    hide First, Second, Third, Fourth, UrlChar;
    next := p;
    ghost var was := encoded[..p];
    if |rest| > 0 {
      encoded[next] := UrlChar(First(rest[0]));
      next := next + 1;
      if |rest| == 1 {
        encoded[next] := UrlChar(Second(rest[0], 0));
        next := next + 1;
      } else {
        encoded[next] := UrlChar(Second(rest[0], rest[1]));
        encoded[next + 1] := UrlChar(Third(rest[1], 0));
        next := next + 2;
      }
    }
    assert encoded[..p] == was;
  }
}
