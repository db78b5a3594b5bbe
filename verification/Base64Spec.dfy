/** The base64 encodings of sections 4 and 5 of RFC 4648 as the library computes them on
    byte sequences, and the laws they obey. */
module Base64Spec {

  const PAD: bv8 := 61
  const PLUS: bv8 := 43
  const SLASH: bv8 := 47
  const MINUS: bv8 := 45
  const UNDERSCORE: bv8 := 95

  /** The value the decoding table holds for a byte outside the alphabet. */
  const INVALID: bv8 := 0x80

  /** Character number `i` of the alphabet. */
  function EncChar(i: bv8): (c: bv8) {
    if i < 26 then 65 + i
    else if i < 52 then 97 + (i - 26)
    else if i < 62 then 48 + (i - 52)
    else if i == 62 then PLUS else SLASH
  }

  function UrlChar(i: bv8): (c: bv8) {
    if i == 62 then MINUS else if i == 63 then UNDERSCORE else EncChar(i)
  }

  /** The decoding table: the number of a character, 0 for the padding. */
  function DecChar(c: bv8): (i: bv8) {
    if 65 <= c <= 90 then c - 65
    else if 97 <= c <= 122 then c - 97 + 26
    else if 48 <= c <= 57 then c - 48 + 52
    else if c == PLUS then 62
    else if c == SLASH then 63
    else if c == PAD then 0
    else INVALID
  }

  lemma TablesAreInverse(i: bv8, c: bv8)
    ensures i < 64 ==> DecChar(EncChar(i)) == i && EncChar(i) != PAD && EncChar(i) != 0
    ensures DecChar(c) != INVALID && c != PAD ==> DecChar(c) < 64 && EncChar(DecChar(c)) == c
  {
  }

  // ---------------------------------------------------------------- encoding

  function First(a: bv8): (i: bv8) { a >> 2 }
  function Second(a: bv8, b: bv8): (i: bv8) { ((a & 0x03) << 4) | (b >> 4) }
  function Third(b: bv8, c: bv8): (i: bv8) { ((b & 0x0f) << 2) | (c >> 6) }
  function Fourth(c: bv8): (i: bv8) { c & 0x3f }

  function Block(a: bv8, b: bv8, c: bv8): (s: seq<bv8>)
    ensures |s| == 4
  {
    [EncChar(First(a)), EncChar(Second(a, b)), EncChar(Third(b, c)), EncChar(Fourth(c))]
  }

  function LastBlock(x: seq<bv8>): (s: seq<bv8>)
    requires 1 <= |x| <= 2
    ensures |s| == 4
  {
    if |x| == 1 then [EncChar(First(x[0])), EncChar(Second(x[0], 0)), PAD, PAD]
    else [EncChar(First(x[0])), EncChar(Second(x[0], x[1])), EncChar(Third(x[1], 0)), PAD]
  }

  function Encode(x: seq<bv8>): (s: seq<bv8>) {
    if x == [] then []
    else if |x| < 3 then LastBlock(x)
    else Block(x[0], x[1], x[2]) + Encode(x[3..])
  }

  /** The size of the buffer that holds the encoding of `len` bytes and a final NUL. */
  function EncodedLength(len: nat): (n: nat) { (len + 2) / 3 * 4 + 1 }

  lemma {:induction false} EncodeLength(x: seq<bv8>)
    ensures |Encode(x)| == EncodedLength(|x|) - 1
    ensures |Encode(x)| % 4 == 0 && (Encode(x) == [] <==> x == [])
  {
    hide First, Second, Third, Fourth, EncChar;
    if |x| >= 3 {
      EncodeLength(x[3..]);
      assert (|x| + 2) / 3 == (|x| - 3 + 2) / 3 + 1;
    }
  }

  /** Encoding in pieces is encoding the whole, as long as each piece but the last is a
      multiple of three bytes. */
  lemma {:induction false} EncodeConcat(a: seq<bv8>, b: seq<bv8>)
    requires |a| % 3 == 0
    ensures Encode(a + b) == Encode(a) + Encode(b)
  {
    if a == [] {
      assert a + b == b;
    } else {
      assert (a + b)[3..] == a[3..] + b;
      EncodeConcat(a[3..], b);
    }
  }

  // ---------------------------------------------------------------- decoding

  /** The bytes the decoder pays attention to. */
  function Filter(s: seq<bv8>): (f: seq<bv8>)
    ensures |f| <= |s|
    ensures forall i | 0 <= i < |f| :: DecChar(f[i]) != INVALID
  {
    if s == [] then []
    else (if DecChar(s[0]) == INVALID then [] else [s[0]]) + Filter(s[1..])
  }

  function Pads(n: nat): (s: seq<bv8>)
    ensures |s| == n && forall i | 0 <= i < n :: s[i] == PAD
  {
    if n == 0 then [] else [PAD] + Pads(n - 1)
  }

  /** How many padding characters complete `n` characters to whole blocks. */
  function MissingPads(n: nat): (k: nat)
    ensures k < 4 && (n + k) % 4 == 0
  {
    (4 - n % 4) % 4
  }

  datatype Decoded = Decoded(bytes: seq<bv8>, ok: bool)

  function CountPads(q: seq<bv8>): (n: nat)
    ensures n <= |q|
  {
    if q == [] then 0 else (if q[0] == PAD then 1 else 0) + CountPads(q[1..])
  }

  function Byte0(s: bv8, t: bv8): (b: bv8) { (s << 2) | (t >> 4) }
  function Byte1(t: bv8, u: bv8): (b: bv8) { (t << 4) | (u >> 2) }
  function Byte2(u: bv8, v: bv8): (b: bv8) { (u << 6) | v }

  /** What one complete block of four table values puts out. */
  function BlockBytes(b: seq<bv8>, pad: nat): (s: seq<bv8>)
    requires |b| == 4
  {
    if pad >= 2 then [Byte0(b[0], b[1])]
    else if pad == 1 then [Byte0(b[0], b[1]), Byte1(b[1], b[2])]
    else [Byte0(b[0], b[1]), Byte1(b[1], b[2]), Byte2(b[2], b[3])]
  }

  function Values(q: seq<bv8>): (b: seq<bv8>)
    ensures |b| == |q|
  {
    seq(|q|, i requires 0 <= i < |q| => DecChar(q[i]))
  }

  /** Block by block; the first block with padding is the last one looked at, and more than
      two padding characters in it are an error. */
  function DecodeBlocks(q: seq<bv8>): (r: Decoded)
    requires |q| % 4 == 0
  {
    if q == [] then Decoded([], true)
    else
      var pad := CountPads(q[..4]);
      var bytes := BlockBytes(Values(q[..4]), pad);
      if pad > 0 then Decoded(bytes, pad <= 2)
      else
        var rest := DecodeBlocks(q[4..]);
        Decoded(bytes + rest.bytes, rest.ok)
  }

  function Completed(s: seq<bv8>): (q: seq<bv8>)
    ensures |q| % 4 == 0
  {
    Filter(s) + Pads(MissingPads(|Filter(s)|))
  }

  function Decode(s: seq<bv8>): (r: Decoded) {
    if Filter(s) == [] then Decoded([], false) else DecodeBlocks(Completed(s))
  }

  // -------------------------------------------------------------- round trip

  lemma BlockBits(a: bv8, b: bv8, c: bv8)
    ensures First(a) < 64 && Second(a, b) < 64 && Third(b, c) < 64 && Fourth(c) < 64
    ensures Byte0(First(a), Second(a, b)) == a
    ensures Byte1(Second(a, b), Third(b, c)) == b
    ensures Byte2(Third(b, c), Fourth(c)) == c
  {
  }

  lemma BlockDecodes(a: bv8, b: bv8, c: bv8)
    ensures var q := Block(a, b, c);
            && DecChar(q[0]) == First(a) && DecChar(q[1]) == Second(a, b)
            && DecChar(q[2]) == Third(b, c) && DecChar(q[3]) == Fourth(c)
            && (forall i | 0 <= i < 4 :: q[i] != PAD && q[i] != 0 && DecChar(q[i]) != INVALID)
  {
    BlockBits(a, b, c);
    SmallIsValid(First(a));
    SmallIsValid(Second(a, b));
    SmallIsValid(Third(b, c));
    SmallIsValid(Fourth(c));
  }

  lemma SmallIsValid(i: bv8)
    requires i < 64
    ensures DecChar(EncChar(i)) == i && i != INVALID && EncChar(i) != PAD && EncChar(i) != 0
  {
  }

  /** Encoded text is all alphabet and padding, without NUL. */
  lemma {:induction false} EncodeIsClean(x: seq<bv8>)
    ensures forall i | 0 <= i < |Encode(x)| :: DecChar(Encode(x)[i]) != INVALID && Encode(x)[i] != 0
  {
    if |x| >= 3 {
      BlockDecodes(x[0], x[1], x[2]);
      EncodeIsClean(x[3..]);
    } else if |x| == 2 {
      BlockDecodes(x[0], x[1], 0);
    } else if |x| == 1 {
      BlockDecodes(x[0], 0, 0);
    }
  }

  lemma {:induction false} FilterOfClean(s: seq<bv8>)
    requires forall i | 0 <= i < |s| :: DecChar(s[i]) != INVALID
    ensures Filter(s) == s
  {
    if s != [] {
      FilterOfClean(s[1..]);
    }
  }

  lemma CountPadsOfFour(q: seq<bv8>)
    requires |q| == 4
    ensures CountPads(q) == (if q[0] == PAD then 1 else 0) + (if q[1] == PAD then 1 else 0)
                            + (if q[2] == PAD then 1 else 0) + (if q[3] == PAD then 1 else 0)
  {
    assert q[1..][1..] == q[2..] && q[2..][1..] == q[3..] && q[3..][1..] == [];
    assert CountPads(q[3..]) == if q[3] == PAD then 1 else 0;
    assert CountPads(q[2..]) == (if q[2] == PAD then 1 else 0) + CountPads(q[3..]);
    assert CountPads(q[1..]) == (if q[1] == PAD then 1 else 0) + CountPads(q[2..]);
  }

  lemma LastBlockDecodes(x: seq<bv8>)
    requires 1 <= |x| <= 2
    ensures DecodeBlocks(LastBlock(x)) == Decoded(x, true)
  {
    hide First, Second, Third, Fourth, Byte0, Byte1, Byte2, EncChar, DecChar;
    var s := LastBlock(x);
    var b := if |x| == 1 then 0 else x[1];
    BlockDecodes(x[0], b, 0);
    BlockBits(x[0], b, 0);
    CountPadsOfFour(s);
    assert s[..4] == s;
  }

  lemma BlockThenRest(a: bv8, b: bv8, c: bv8, rest: seq<bv8>)
    requires |rest| % 4 == 0
    ensures var r := DecodeBlocks(rest); DecodeBlocks(Block(a, b, c) + rest) == Decoded([a, b, c] + r.bytes, r.ok)
  {
    hide First, Second, Third, Fourth, Byte0, Byte1, Byte2, EncChar, DecChar, CountPads;
    var block := Block(a, b, c);
    BlockDecodes(a, b, c);
    BlockBits(a, b, c);
    CountPadsOfFour(block);
    assert (block + rest)[..4] == block && (block + rest)[4..] == rest;
  }

  lemma {:induction false} BlocksRoundTrip(x: seq<bv8>)
    ensures |Encode(x)| % 4 == 0 && DecodeBlocks(Encode(x)) == Decoded(x, true)
  {
    hide Block, DecodeBlocks, EncodedLength, LastBlock;
    EncodeLength(x);
    if |x| >= 3 {
      BlocksRoundTrip(x[3..]);
      BlockThenRest(x[0], x[1], x[2], Encode(x[3..]));
      assert [x[0], x[1], x[2]] + x[3..] == x;
    } else if x != [] {
      LastBlockDecodes(x);
    } else {
      EmptyDecodes();
    }
  }

  /** Decoding undoes encoding exactly for the non-empty inputs; nothing decodes to the
      empty sequence. */
  lemma RoundTripIff(x: seq<bv8>)
    ensures Decode(Encode(x)) == Decoded(x, true) <==> x != []
  {
    hide Encode, EncodedLength, DecodeBlocks, DecChar;
    EncodeIsClean(x);
    FilterOfClean(Encode(x));
    BlocksRoundTrip(x);
    EncodeLength(x);
    assert Encode(x) + Pads(0) == Encode(x);
  }

  lemma EncodeIsInjective(x: seq<bv8>, y: seq<bv8>)
    requires Encode(x) == Encode(y)
    ensures x == y
  {
    BlocksRoundTrip(x);
    BlocksRoundTrip(y);
  }

  // --------------------------------------------------------------- tolerance

  lemma {:induction false} FilterOfFilter(s: seq<bv8>)
    ensures Filter(Filter(s)) == Filter(s)
  {
    FilterOfClean(Filter(s));
  }

  /** Bytes outside the alphabet make no difference wherever they stand
      (section 3.3 of RFC 4648). */
  lemma DecodeIgnoresForeignBytes(s: seq<bv8>, t: seq<bv8>)
    requires Filter(s) == Filter(t)
    ensures Decode(s) == Decode(t) == Decode(Filter(s))
  {
    FilterOfFilter(s);
  }

  lemma {:induction false} FilterOfConcat(a: seq<bv8>, b: seq<bv8>)
    ensures Filter(a + b) == Filter(a) + Filter(b)
  {
    if a == [] {
      assert a + b == b;
    } else {
      assert (a + b)[1..] == a[1..] + b;
      FilterOfConcat(a[1..], b);
    }
  }

  /** The text without its padding. */
  function Unpadded(s: seq<bv8>): (r: seq<bv8>)
    ensures r <= s && (r != [] ==> r[|r| - 1] != PAD)
    ensures forall i | |r| <= i < |s| :: s[i] == PAD
  {
    if s != [] && s[|s| - 1] == PAD then Unpadded(s[..|s| - 1]) else s
  }

  lemma SplitPads(s: seq<bv8>)
    ensures s == Unpadded(s) + Pads(|s| - |Unpadded(s)|)
  {
  }

  lemma {:induction false} UnpaddedEncode(x: seq<bv8>)
    ensures |Encode(x)| - |Unpadded(Encode(x))| == (if |x| % 3 == 0 then 0 else 3 - |x| % 3)
  {
    hide First, Second, Third, Fourth, EncChar, DecChar, Unpadded;
    if |x| > 3 {
      UnpaddedEncode(x[3..]);
      FirstIsNoPad(x[3..]);
      UnpaddedOfConcat(Block(x[0], x[1], x[2]), Encode(x[3..]));
    } else if |x| == 3 {
      BlockDecodes(x[0], x[1], x[2]);
      assert x[3..] == [];
      assert Encode(x) == Block(x[0], x[1], x[2]);
    } else if x != [] {
      BlockDecodes(x[0], if |x| == 1 then 0 else x[1], 0);
      UnpaddedOfFour(LastBlock(x));
    }
  }

  lemma UnpaddedOfFour(s: seq<bv8>)
    requires |s| == 4 && s[0] != PAD && s[1] != PAD && s[3] == PAD
    ensures |Unpadded(s)| == if s[2] == PAD then 2 else 3
  {
    var t := s[..3];
    assert Unpadded(s) == Unpadded(t);
    if s[2] == PAD { assert t[..2][1] != PAD; }
  }

  lemma FirstIsNoPad(x: seq<bv8>)
    requires x != []
    ensures Encode(x) != [] && Encode(x)[0] != PAD
  {
    BlockDecodes(x[0], if |x| > 1 then x[1] else 0, if |x| > 2 then x[2] else 0);
  }

  lemma {:induction false} UnpaddedOfConcat(a: seq<bv8>, b: seq<bv8>)
    requires b != [] && b[0] != PAD
    ensures Unpadded(a + b) == a + Unpadded(b)
    decreases |b|
  {
    if b[|b| - 1] == PAD {
      assert (a + b)[..|a + b| - 1] == a + b[..|b| - 1];
      UnpaddedOfConcat(a, b[..|b| - 1]);
    }
  }

  lemma {:induction false} FilterOfPads(n: nat)
    ensures Filter(Pads(n)) == Pads(n)
  {
    FilterOfClean(Pads(n));
  }

  /** Missing padding makes no difference: any text decodes like the text with its padding. */
  lemma PaddingIsOptional(s: seq<bv8>)
    ensures Decode(s + Pads(MissingPads(|Filter(s)|))) == Decode(s)
  {
    hide DecodeBlocks, DecChar, Filter, MissingPads;
    var pads := Pads(MissingPads(|Filter(s)|));
    FilterOfConcat(s, pads);
    FilterOfPads(|pads|);
    MissingPadsIs(|Filter(s) + pads|, 0);
    assert Filter(s) + pads + Pads(0) == Filter(s) + pads;
    if Filter(s) == [] {
      MissingPadsIs(0, 0);
    }
  }

  /** So encoded text that lost its padding decodes all the same. */
  lemma UnpaddedDecodes(x: seq<bv8>)
    ensures Decode(Unpadded(Encode(x))) == Decode(Encode(x))
  {
    hide Decode, Encode, EncodedLength, DecChar, Unpadded, Pads, MissingPads, Filter;
    var s := Encode(x);
    var u := Unpadded(s);
    EncodeIsClean(x);
    assert forall i | 0 <= i < |u| :: u[i] == s[i];
    FilterOfClean(u);
    UnpaddedEncode(x);
    EncodeLength(x);
    MissingPadsIs(|u|, |s| - |u|);
    SplitPads(s);
    PaddingIsOptional(u);
  }

  lemma MissingPadsIs(n: nat, k: nat)
    requires k < 4 && (n + k) % 4 == 0
    ensures MissingPads(n) == k
  {
  }

  /** Text without padding characters is rejected exactly when it holds nothing, or one
      character more than whole blocks. */
  lemma {:induction false} BlocksWithoutPads(f: seq<bv8>)
    requires PAD !in f
    ensures var r := DecodeBlocks(f + Pads(MissingPads(|f|)));
            (r.ok <==> |f| % 4 != 1) && (r.ok ==> |r.bytes| == |f| * 3 / 4)
    decreases |f|
  {
    hide Pads, MissingPads, DecodeBlocks;
    if |f| >= 4 {
      var pads := Pads(MissingPads(|f|));
      MissingPadsIs(|f[4..]|, MissingPads(|f|));
      assert (f + pads)[4..] == f[4..] + pads;
      assert forall i | 0 <= i < 4 :: (f + pads)[i] == f[i] && f[i] in f;
      BlockWithoutPads(f + pads);
      BlocksWithoutPads(f[4..]);
      ThreeOfFour(|f| - 4);
    } else {
      ShortBlock(f);
    }
  }

  lemma ThreeOfFour(n: nat)
    ensures (n + 4) * 3 / 4 == n * 3 / 4 + 3 && (n + 4) % 4 == n % 4
  {
  }

  lemma BlockWithoutPads(q: seq<bv8>)
    requires |q| >= 4 && |q| % 4 == 0 && forall i | 0 <= i < 4 :: q[i] != PAD
    ensures DecodeBlocks(q).ok == DecodeBlocks(q[4..]).ok
    ensures |DecodeBlocks(q).bytes| == 3 + |DecodeBlocks(q[4..]).bytes|
  {
    hide Byte0, Byte1, Byte2, DecChar, CountPads;
    CountPadsOfFour(q[..4]);
  }

  lemma ShortBlock(f: seq<bv8>)
    requires PAD !in f && |f| < 4
    ensures var r := DecodeBlocks(f + Pads(MissingPads(|f|)));
            (r.ok <==> |f| != 1) && (r.ok ==> |r.bytes| == |f| * 3 / 4)
  {
    hide First, Second, Third, Fourth, Byte0, Byte1, Byte2, EncChar, DecChar, Pads, MissingPads, DecodeBlocks;
    var pads := Pads(MissingPads(|f|));
    if f == [] {
      MissingPadsIs(0, 0);
      assert f + pads == [];
      EmptyDecodes();
    } else {
      MissingPadsIs(|f|, 4 - |f|);
      PaddedBlock(f, pads);
    }
  }

  lemma EmptyDecodes()
    ensures DecodeBlocks([]) == Decoded([], true)
  {
  }

  /** Short of two characters, a block is in error; otherwise it gives one byte less. */
  lemma PaddedBlock(f: seq<bv8>, pads: seq<bv8>)
    requires PAD !in f && 1 <= |f| < 4 && |pads| == 4 - |f|
    requires forall i | 0 <= i < |pads| :: pads[i] == PAD
    ensures var r := DecodeBlocks(f + pads); (r.ok <==> |f| != 1) && (r.ok ==> |r.bytes| == |f| - 1)
  {
    hide Byte0, Byte1, Byte2, DecChar, CountPads;
    var q := f + pads;
    assert forall i | 0 <= i < |f| :: q[i] == f[i] && f[i] in f;
    assert forall i | |f| <= i < 4 :: q[i] == pads[i - |f|];
    assert q[..4] == q;
    CountPadsOfFour(q);
  }

  lemma DecodeUnpaddedIff(s: seq<bv8>)
    requires PAD !in s
    ensures Decode(s).ok <==> |Filter(s)| > 0 && |Filter(s)| % 4 != 1
    ensures Decode(s).ok ==> |Decode(s).bytes| == |Filter(s)| * 3 / 4
  {
    FilterKeepsOut(s, PAD);
    BlocksWithoutPads(Filter(s));
  }

  lemma {:induction false} FilterKeepsOut(s: seq<bv8>, c: bv8)
    requires c !in s
    ensures c !in Filter(s)
  {
    if s != [] {
      FilterKeepsOut(s[1..], c);
    }
  }

  // ------------------------------------------------------------------ length

  function TrailingPads(s: seq<bv8>): (n: nat)
    ensures n <= |s|
  {
    |s| - |Unpadded(s)|
  }

  /** The length the library predicts for the decoded text; its padding count never looks
      at the first character. */
  function DecodedLen(s: seq<bv8>): (n: int) {
    if |s| < 4 then 0 else 3 * (|s| / 4) - TrailingPads(s[1..])
  }

  lemma DecodedLenOfEncoded(x: seq<bv8>)
    ensures DecodedLen(Encode(x)) == |x|
  {
    hide *;
    var s := Encode(x);
    EncodeLength(x);
    UnpaddedEncode(x);
    if x != [] {
      FirstIsNoPad(x);
      DecodedLenFromPads(s);
      Thirds(|x|);
    } else {
      DecodedLenOfEmpty();
    }
  }

  lemma DecodedLenOfEmpty()
    ensures DecodedLen([]) == 0
  {
  }

  lemma DecodedLenFromPads(s: seq<bv8>)
    requires |s| >= 4 && s[0] != PAD
    ensures DecodedLen(s) == 3 * (|s| / 4) - (|s| - |Unpadded(s)|)
  {
    hide Unpadded;
    TailPads(s);
  }

  lemma Thirds(n: nat)
    ensures 3 * ((EncodedLength(n) - 1) / 4) == n + (if n % 3 == 0 then 0 else 3 - n % 3)
  {
  }

  lemma TailPads(s: seq<bv8>)
    requires s != [] && s[0] != PAD
    ensures TrailingPads(s[1..]) == TrailingPads(s)
  {
    assert s == [s[0]] + s[1..];
    if s[1..] != [] {
      TailPadsLonger(s[0], s[1..]);
    }
  }

  lemma {:induction false} TailPadsLonger(c: bv8, t: seq<bv8>)
    requires c != PAD
    ensures Unpadded([c] + t) == [c] + Unpadded(t)
    decreases |t|
  {
    if t != [] && t[|t| - 1] == PAD {
      assert ([c] + t)[..|[c] + t| - 1] == [c] + t[..|t| - 1];
      TailPadsLonger(c, t[..|t| - 1]);
    }
  }

  // --------------------------------------------------------------- base64url

  function UrlEncode(x: seq<bv8>): (s: seq<bv8>) {
    if x == [] then []
    else if |x| == 1 then [UrlChar(First(x[0])), UrlChar(Second(x[0], 0))]
    else if |x| == 2 then [UrlChar(First(x[0])), UrlChar(Second(x[0], x[1])), UrlChar(Third(x[1], 0))]
    else [UrlChar(First(x[0])), UrlChar(Second(x[0], x[1])), UrlChar(Third(x[1], x[2])), UrlChar(Fourth(x[2]))]
         + UrlEncode(x[3..])
  }

  /** The URL-safe spelling of a base64 character. */
  function ToUrl(c: bv8): (r: bv8) {
    if c == PLUS then MINUS else if c == SLASH then UNDERSCORE else c
  }

  function MapToUrl(s: seq<bv8>): (r: seq<bv8>)
    ensures |r| == |s| && forall i | 0 <= i < |s| :: r[i] == ToUrl(s[i])
  {
    seq(|s|, i requires 0 <= i < |s| => ToUrl(s[i]))
  }

  lemma UrlCharIs(i: bv8)
    requires i < 64
    ensures UrlChar(i) == ToUrl(EncChar(i))
  {
  }

  lemma UrlBlock(a: bv8, b: bv8, c: bv8)
    ensures [UrlChar(First(a)), UrlChar(Second(a, b)), UrlChar(Third(b, c)), UrlChar(Fourth(c))] == MapToUrl(Block(a, b, c))
  {
    BlockBits(a, b, c);
    UrlCharIs(First(a));
    UrlCharIs(Second(a, b));
    UrlCharIs(Third(b, c));
    UrlCharIs(Fourth(c));
  }

  /** base64url is base64 with two characters respelled and the padding dropped
      (section 5 of RFC 4648). */
  lemma {:induction false} UrlEncodeIsUnpadded(x: seq<bv8>)
    ensures UrlEncode(x) == MapToUrl(Unpadded(Encode(x)))
  {
    hide First, Second, Third, Fourth, Byte0, Byte1, Byte2, EncChar, DecChar;
    hide UrlChar, ToUrl, Unpadded;
    if |x| > 3 {
      var block := Block(x[0], x[1], x[2]);
      UrlBlock(x[0], x[1], x[2]);
      UrlEncodeIsUnpadded(x[3..]);
      FirstIsNoPad(x[3..]);
      UnpaddedOfConcat(block, Encode(x[3..]));
      assert MapToUrl(block + Unpadded(Encode(x[3..]))) == MapToUrl(block) + MapToUrl(Unpadded(Encode(x[3..])));
    } else if x != [] {
      UrlLast(x);
    }
  }

  lemma MapToUrlPrefix(s: seq<bv8>, k: nat)
    requires k <= |s|
    ensures MapToUrl(s[..k]) == MapToUrl(s)[..k]
  {
  }

  /** The input block a last block of output stands for, filled up with zeros. */
  function Filled(x: seq<bv8>): (b: seq<bv8>)
    requires 1 <= |x| <= 3
    ensures |b| == 3
  {
    [x[0], if |x| > 1 then x[1] else 0, if |x| > 2 then x[2] else 0]
  }

  function FilledBlock(x: seq<bv8>): (s: seq<bv8>)
    requires 1 <= |x| <= 3
    ensures |s| == 4
  {
    Block(Filled(x)[0], Filled(x)[1], Filled(x)[2])
  }

  /** A last block of either encoding is the head of a full block. */
  lemma LastBlockIsHead(x: seq<bv8>)
    requires 1 <= |x| <= 3
    ensures |Encode(x)| == 4
    ensures Encode(x)[..|x| + 1] == FilledBlock(x)[..|x| + 1] && UrlEncode(x) == MapToUrl(FilledBlock(x))[..|x| + 1]
  {
    hide First, Second, Third, Fourth, EncChar, UrlChar, MapToUrl;
    UrlBlock(Filled(x)[0], Filled(x)[1], Filled(x)[2]);
    assert |x| == 3 ==> x[3..] == [];
  }

  lemma UrlLast(x: seq<bv8>)
    requires 1 <= |x| <= 3
    ensures UrlEncode(x) == MapToUrl(Unpadded(Encode(x)))
  {
    hide *;
    LastBlockIsHead(x);
    UnpaddedLast(x);
    MapToUrlPrefix(FilledBlock(x), |x| + 1);
  }

  lemma UnpaddedLast(x: seq<bv8>)
    requires 1 <= |x| <= 3
    ensures |Encode(x)| == 4 && Unpadded(Encode(x)) == Encode(x)[..|x| + 1]
  {
    hide *;
    LastBlockIsHead(x);
    UnpaddedEncode(x);
  }

  /** The encoding and its NUL fit the buffer allocated for padded base64. */
  lemma UrlEncodeFits(x: seq<bv8>)
    ensures |UrlEncode(x)| + 1 <= EncodedLength(|x|)
    ensures x != [] ==> UrlEncode(x) != []
  {
    UrlEncodeIsUnpadded(x);
    EncodeLength(x);
  }

  predicate IsUrlChar(c: bv8) {
    65 <= c <= 90 || 97 <= c <= 122 || 48 <= c <= 57 || c == MINUS || c == UNDERSCORE
  }

  lemma ToUrlIsUrlChar(c: bv8)
    requires DecChar(c) != INVALID && c != PAD
    ensures IsUrlChar(ToUrl(c))
  {
  }

  /** No character of it needs escaping, and none is a dot. */
  lemma UrlEncodeIsClean(x: seq<bv8>)
    ensures forall i | 0 <= i < |UrlEncode(x)| :: IsUrlChar(UrlEncode(x)[i])
  {
    var s := Encode(x);
    var u := Unpadded(s);
    UrlEncodeIsUnpadded(x);
    EncodeIsClean(x);
    forall i | 0 <= i < |u|
      ensures IsUrlChar(ToUrl(u[i]))
    {
      assert u[i] == s[i];
      UnpaddedHasNoPad(x, i);
      ToUrlIsUrlChar(u[i]);
    }
  }

  lemma {:induction false} UnpaddedHasNoPad(x: seq<bv8>, i: nat)
    requires i < |Unpadded(Encode(x))|
    ensures Encode(x)[i] != PAD
  {
    hide First, Second, Third, Fourth, Byte0, Byte1, Byte2, EncChar, DecChar;
    hide EncodedLength, Unpadded;
    EncodeLength(x);
    UnpaddedEncode(x);
    if |x| >= 3 {
      BlockDecodes(x[0], x[1], x[2]);
      if i >= 4 {
        UnpaddedEncode(x[3..]);
        UnpaddedHasNoPad(x[3..], i - 4);
      }
    } else if x != [] {
      BlockDecodes(x[0], if |x| == 1 then 0 else x[1], 0);
    }
  }
}
