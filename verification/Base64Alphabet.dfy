/** What encoded text says, told without the encoder: its characters are those of the tables of
    RFC 4648, and they are the digits of the input read as one number. */
module Base64Alphabet {
  import opened Base64Spec

  /** Table 1 of RFC 4648. */
  const ALPHABET: string := "ABCDEFGHIJKLMNOPQRSTUVWXYZ" + "abcdefghijklmnopqrstuvwxyz" + "0123456789+/"

  /** Table 2 of RFC 4648. */
  const URL_ALPHABET: string := "ABCDEFGHIJKLMNOPQRSTUVWXYZ" + "abcdefghijklmnopqrstuvwxyz" + "0123456789-_"

  lemma CharIsInTable(i: bv8)
    requires i < 64
    ensures |ALPHABET| == |URL_ALPHABET| == 64
    ensures EncChar(i) as nat == ALPHABET[i as nat] as nat
    ensures UrlChar(i) as nat == URL_ALPHABET[i as nat] as nat
  {
    CharAsNumber(i);
    TableAt(i as nat);
  }

  function CharCode(i: nat): (c: nat) {
    if i < 26 then 65 + i else if i < 52 then 71 + i else if i < 62 then i - 4 else if i == 62 then 43 else 47
  }

  lemma CharAsNumber(i: bv8)
    requires i < 64
    ensures i as nat < 64 && EncChar(i) as nat == CharCode(i as nat)
    ensures UrlChar(i) as nat == if i == 62 then 45 else if i == 63 then 95 else CharCode(i as nat)
  {
  }

  lemma TableAt(i: nat)
    requires i < 64
    ensures ALPHABET[i] as nat == CharCode(i)
    ensures URL_ALPHABET[i] as nat == if i == 62 then 45 else if i == 63 then 95 else CharCode(i)
  {
    LettersAt(i);
    var tail := i - 52;
    assert tail >= 0 ==> ALPHABET[i] == "0123456789+/"[tail] && URL_ALPHABET[i] == "0123456789-_"[tail];
  }

  lemma LettersAt(i: nat)
    requires i < 64
    ensures i < 52 ==> ALPHABET[i] as nat == URL_ALPHABET[i] as nat == CharCode(i)
  {
  }

  // ---------------------------------------------------------------- the number

  /** The input read as one number in base 256, most significant byte first. */
  function Value256(x: seq<bv8>): (v: nat) {
    if x == [] then 0 else Value256(x[..|x| - 1]) * 256 + x[|x| - 1] as nat
  }

  function Power64(k: nat): (p: nat)
    ensures p > 0
  {
    if k == 0 then 1 else 64 * Power64(k - 1)
  }

  /** How many characters `n` bytes take, before the padding. */
  function Sextets(n: nat): (m: nat) { (4 * n + 2) / 3 }

  /** The zero bits that fill up the last character. */
  function Fill(n: nat): (f: nat)
    ensures f > 0
  {
    if n % 3 == 0 then 1 else if n % 3 == 1 then 16 else 4
  }

  /** Digit `k` of the number, with the zero bits added, in base 64. */
  function Digit(x: seq<bv8>, k: nat): (d: nat)
    requires k < Sextets(|x|)
    ensures d < 64
  {
    Value256(x) * Fill(|x|) / Power64(Sextets(|x|) - 1 - k) % 64
  }

  // ------------------------------------------------------------ bits and digits

  lemma HighPart(p: bv8, y: bv8)
    ensures p < 4 && y < 16 ==> ((p << 4) | y) as nat == p as nat * 16 + y as nat
    ensures p < 16 && y < 4 ==> ((p << 2) | y) as nat == p as nat * 4 + y as nat
  {
  }

  lemma Parts(a: bv8)
    ensures (a >> 2) as nat == a as nat / 4 && (a >> 4) as nat == a as nat / 16 && (a >> 6) as nat == a as nat / 64
    ensures (a & 0x03) as nat == a as nat % 4 && (a & 0x0f) as nat == a as nat % 16 && (a & 0x3f) as nat == a as nat % 64
  {
  }

  lemma SextetsOfBlock(a: bv8, b: bv8, c: bv8)
    ensures First(a) as nat == a as nat / 4
    ensures Second(a, b) as nat == a as nat % 4 * 16 + b as nat / 16
    ensures Third(b, c) as nat == b as nat % 16 * 4 + c as nat / 64
    ensures Fourth(c) as nat == c as nat % 64
  {
    Parts(a);
    Parts(b);
    Parts(c);
    BlockRanges(a, b, c);
    HighPart(a & 0x03, b >> 4);
    HighPart(b & 0x0f, c >> 6);
  }

  lemma BlockRanges(a: bv8, b: bv8, c: bv8)
    ensures a & 0x03 < 4 && b >> 4 < 16 && b & 0x0f < 16 && c >> 6 < 4
  {
  }

  lemma Assoc(a: nat, b: nat, c: nat)
    ensures a * (b * c) == a * b * c
  {
  }

  lemma Dist(a: nat, b: nat, c: nat)
    ensures a * (b + c) == a * b + a * c && (b + c) * a == b * a + c * a
  {
  }

  lemma Product(p: nat, q: nat)
    requires p > 0 && q > 0
    ensures p * q > 0
  {
  }

  lemma Euclid(x: nat, m: nat) returns (q: nat, r: nat)
    requires m > 0
    ensures q == x / m && r < m && x == m * q + r
  {
    q, r := x / m, x % m;
  }

  lemma DivDiv(x: nat, p: nat, q: nat)
    requires p > 0 && q > 0
    ensures p * q > 0 && x / (p * q) == x / p / q
  {
    var d, r := Euclid(x, p);
    var e, t := Euclid(d, q);
    NestedDiv(p, q, e, t, r);
  }

  lemma NestedDiv(p: nat, q: nat, e: nat, t: nat, r: nat)
    requires t < q && r < p
    ensures p * q > 0 && (p * (q * e + t) + r) / (p * q) == e
  {
    Product(p, q);
    Dist(p, q * e, t);
    Assoc(p, q, e);
    MulLe(p, t + 1, q);
    Dist(p, t, 1);
    DivIs(p * (q * e + t) + r, p * q, e, p * t + r);
  }

  lemma MulLe(p: nat, a: nat, b: nat)
    requires a <= b
    ensures p * a <= p * b
  {
  }

  lemma DivIs(x: nat, m: nat, q: nat, r: nat)
    requires m > 0 && r < m && x == m * q + r
    ensures x / m == q && x % m == r
  {
    var d := x / m - q;
    assert x == m * (x / m) + x % m;
    assert m * d == r - x % m by { assert m * (x / m) - m * q == m * d; }
    if d > 0 { MulLe(m, 1, d); } else if d < 0 { MulLe(m, 1, -d); }
  }

  lemma {:induction false} PowerAdds(i: nat, j: nat)
    ensures Power64(i + j) == Power64(i) * Power64(j)
  {
    if i > 0 {
      PowerAdds(i - 1, j);
      assert 64 * (Power64(i - 1) * Power64(j)) == 64 * Power64(i - 1) * Power64(j);
    }
  }

  /** The leading digits of a number come from its leading part alone, the others from the rest. */
  lemma DigitOfSum(b: nat, r: nat, m: nat, j: nat)
    requires r < Power64(m)
    ensures var v := b * Power64(m) + r;
            if j >= m then v / Power64(j) == b / Power64(j - m)
            else v / Power64(j) % 64 == r / Power64(j) % 64
  {
    var v, p := b * Power64(m) + r, Power64(m);
    if j >= m {
      PowerAdds(m, j - m);
      DivDiv(v, p, Power64(j - m));
      DivIs(v, p, b, r);
    } else {
      PowerAdds(j, m - j);
      LowDigit(b, r, Power64(j), Power64(m - j - 1));
    }
  }

  lemma LowDigit(b: nat, r: nat, q: nat, t: nat)
    requires q > 0
    ensures (b * (q * (64 * t)) + r) / q % 64 == r / q % 64
  {
    var w := b * (64 * t) + r / q;
    Regroup(b, q, 64 * t);
    assert r == q * (r / q) + r % q;
    assert q * w == q * (b * (64 * t)) + q * (r / q);
    DivIs(b * (q * (64 * t)) + r, q, w, r % q);
    Regroup(b, 64, t);
    AddsWholes(b * t, r / q);
  }

  lemma Regroup(b: nat, q: nat, t: nat)
    ensures b * (q * t) == q * (b * t)
  {
  }

  lemma AddsWholes(w: nat, d: nat)
    ensures (64 * w + d) % 64 == d % 64
  {
  }

  // -------------------------------------------------------------- the encoding

  function Number(x: seq<bv8>): (v: nat) { Value256(x) * Fill(|x|) }

  function Power256(k: nat): (p: nat) { if k == 0 then 1 else 256 * Power256(k - 1) }

  lemma {:induction false} ValueOfConcat(a: seq<bv8>, b: seq<bv8>)
    ensures Value256(a + b) == Value256(a) * Power256(|b|) + Value256(b)
    decreases |b|
  {
    if b == [] {
      assert a + b == a;
    } else {
      var c := b[..|b| - 1];
      assert (a + b)[..|a + b| - 1] == a + c;
      ValueOfConcat(a, c);
      var va, p := Value256(a), Power256(|c|);
      assert (va * p + Value256(c)) * 256 == va * (256 * p) + Value256(c) * 256 by {
        assert va * p * 256 == va * (256 * p);
      }
    }
  }

  lemma {:induction false} ValueIsSmall(x: seq<bv8>)
    ensures Value256(x) < Power256(|x|)
  {
    if x != [] {
      ValueIsSmall(x[..|x| - 1]);
    }
  }

  lemma PowersOfBlock(n: nat, m: nat)
    ensures Power256(n + 3) == 16777216 * Power256(n) && Power64(m + 4) == 16777216 * Power64(m)
  {
    assert Power256(n + 2) == 256 * Power256(n + 1) && Power256(n + 1) == 256 * Power256(n);
    assert Power64(m + 3) == 64 * Power64(m + 2) && Power64(m + 2) == 64 * Power64(m + 1);
  }

  /** The bits of `n` bytes and the zero bits make whole characters. */
  lemma {:induction false} BitsFit(n: nat)
    ensures Power256(n) * Fill(n) == Power64(Sextets(n))
  {
    if n >= 3 {
      BitsFit(n - 3);
      PowersOfBlock(n - 3, Sextets(n - 3));
      assert Sextets(n) == Sextets(n - 3) + 4 && Fill(n) == Fill(n - 3);
      Scale(Power256(n - 3), Fill(n));
    } else {
      ShortBitsFit(n);
    }
  }

  lemma Scale(p: nat, f: nat)
    ensures 16777216 * p * f == 16777216 * (p * f)
  {
  }

  lemma ShortBitsFit(n: nat)
    requires n < 3
    ensures Power256(n) * Fill(n) == Power64(Sextets(n))
  {
    SmallPowers();
    assert Power256(0) == 1 && Power256(1) == 256 && Power256(2) == 65536;
  }

  lemma JoinNumber(b: nat, p: nat, v: nat, f: nat, w: nat)
    requires p * f == w && v < p && f > 0
    ensures (b * p + v) * f == b * w + v * f && v * f < w
  {
    Dist(f, b * p, v);
    Assoc(b, p, f);
    MulLe(f, v + 1, p);
    Dist(f, v, 1);
  }

  lemma NumberOfBlock(x: seq<bv8>)
    requires |x| >= 3
    ensures var m := Sextets(|x| - 3);
            && Sextets(|x|) == m + 4 && Number(x[3..]) < Power64(m)
            && Number(x) == (x[0] as nat * 65536 + x[1] as nat * 256 + x[2] as nat) * Power64(m) + Number(x[3..])
  {
    hide Value256, Power256, Power64;
    var rest := x[3..];
    assert x == x[..3] + rest;
    ValueOfConcat(x[..3], rest);
    ValueOfThree(x[..3]);
    ValueIsSmall(rest);
    BitsFit(|rest|);
    assert Fill(|x|) == Fill(|rest|);
    JoinNumber(Value256(x[..3]), Power256(|rest|), Value256(rest), Fill(|rest|), Power64(Sextets(|rest|)));
  }

  lemma ValueOfThree(x: seq<bv8>)
    requires |x| == 3
    ensures Value256(x) == x[0] as nat * 65536 + x[1] as nat * 256 + x[2] as nat
  {
    assert x[..2][..1] == x[..1] && x[..1][..0] == [];
    assert Value256(x[..1]) == x[0] as nat;
    assert Value256(x[..2]) == x[0] as nat * 256 + x[1] as nat;
  }

  lemma FourDigits(d: nat, e: nat, f: nat, g: nat)
    requires d < 64 && e < 64 && f < 64 && g < 64
    ensures var v := d * 262144 + e * 4096 + f * 64 + g;
            && v / Power64(3) % 64 == d && v / Power64(2) % 64 == e && v / Power64(1) % 64 == f && v / Power64(0) % 64 == g
  {
    SmallPowers();
    var v := d * 262144 + e * 4096 + f * 64 + g;
    DivIs(v, 262144, d, e * 4096 + f * 64 + g);
    DivIs(v, 4096, d * 64 + e, f * 64 + g);
    DivIs(v, 64, (d * 64 + e) * 64 + f, g);
    AddsWholes(d, e);
    AddsWholes(d * 64 + e, f);
  }

  lemma SmallPowers()
    ensures Power64(0) == 1 && Power64(1) == 64 && Power64(2) == 4096 && Power64(3) == 262144
  {
  }

  lemma BytesAsDigits(a: nat, b: nat, c: nat)
    requires a < 256 && b < 256 && c < 256
    ensures var d, e, f, g := a / 4, a % 4 * 16 + b / 16, b % 16 * 4 + c / 64, c % 64;
            && d < 64 && e < 64 && f < 64 && g < 64
            && a * 65536 + b * 256 + c == d * 262144 + e * 4096 + f * 64 + g
  {
    assert a == 4 * (a / 4) + a % 4 && b == 16 * (b / 16) + b % 16 && c == 64 * (c / 64) + c % 64;
  }

  /** The number of the `k`-th character of a block. */
  function BlockDigit(a: bv8, b: bv8, c: bv8, k: nat): (i: bv8)
    requires k < 4
  {
    if k == 0 then First(a) else if k == 1 then Second(a, b) else if k == 2 then Third(b, c) else Fourth(c)
  }

  function DigitOfBytes(a: nat, b: nat, c: nat, k: nat): (d: nat) {
    if k == 0 then a / 4 else if k == 1 then a % 4 * 16 + b / 16 else if k == 2 then b % 16 * 4 + c / 64 else c % 64
  }

  lemma DigitOfBytesIs(a: nat, b: nat, c: nat, k: nat)
    requires k < 4 && a < 256 && b < 256 && c < 256
    ensures DigitOfBytes(a, b, c, k) == (a * 65536 + b * 256 + c) / Power64(3 - k) % 64
  {
    hide Power64;
    BytesAsDigits(a, b, c);
    FourDigits(a / 4, a % 4 * 16 + b / 16, b % 16 * 4 + c / 64, c % 64);
  }

  lemma BlockDigitAsNumber(a: bv8, b: bv8, c: bv8, k: nat)
    requires k < 4
    ensures BlockDigit(a, b, c, k) < 64 && BlockDigit(a, b, c, k) as nat == DigitOfBytes(a as nat, b as nat, c as nat, k)
  {
    hide First, Second, Third, Fourth;
    SextetsOfBlock(a, b, c);
    BlockBits(a, b, c);
  }

  lemma BlockDigitIs(a: bv8, b: bv8, c: bv8, k: nat)
    requires k < 4
    ensures var v := a as nat * 65536 + b as nat * 256 + c as nat;
            BlockDigit(a, b, c, k) < 64 && BlockDigit(a, b, c, k) as nat == v / Power64(3 - k) % 64
  {
    hide BlockDigit, DigitOfBytes, Power64;
    BlockDigitAsNumber(a, b, c, k);
    DigitOfBytesIs(a as nat, b as nat, c as nat, k);
  }

  lemma DigitOfBlock(x: seq<bv8>, k: nat)
    requires |x| >= 3 && k < Sextets(|x|)
    ensures if k < 4 then Digit(x, k) == BlockDigit(x[0], x[1], x[2], k) as nat else Digit(x, k) == Digit(x[3..], k - 4)
  {
    hide Value256, Power64, BlockDigit;
    NumberOfBlock(x);
    var v := x[0] as nat * 65536 + x[1] as nat * 256 + x[2] as nat;
    var m := Sextets(|x| - 3);
    DigitOfSum(v, Number(x[3..]), m, m + 3 - k);
    if k < 4 { BlockDigitIs(x[0], x[1], x[2], k); }
  }

  /** The last one or two bytes, and the zero bits behind them: the block filled up with zero
      bytes has the same digits. */
  lemma DigitOfLast(x: seq<bv8>, k: nat)
    requires 1 <= |x| <= 2 && k <= |x|
    ensures k < Sextets(|x|) == |x| + 1 && Digit(x, k) == BlockDigit(x[0], if |x| == 2 then x[1] else 0, 0, k) as nat
  {
    hide BlockDigit, Power64, Value256;
    var b := if |x| == 2 then x[1] else 0;
    BlockDigitIs(x[0], b, 0, k);
    NumberOfLast(x);
    DropZeros(Number(x), |x|, k);
  }

  lemma NumberOfLast(x: seq<bv8>)
    requires 1 <= |x| <= 2
    ensures x[0] as nat * 65536 + (if |x| == 2 then x[1] else 0) as nat * 256 == Number(x) * (if |x| == 2 then 64 else 4096)
  {
    hide Value256;
    ValueOfLast(x);
  }

  lemma DropZeros(v: nat, n: nat, k: nat)
    requires 1 <= n <= 2 && k <= n
    ensures v * (if n == 2 then 64 else 4096) / Power64(3 - k) == v / Power64(n - k)
  {
    SmallPowers();
    var z := if n == 2 then 64 else 4096;
    PowerAdds(2 - n + 1, n - k);
    DivDiv(v * z, z, Power64(n - k));
    DivIs(v * z, z, v, 0);
  }

  lemma ValueOfLast(x: seq<bv8>)
    requires 1 <= |x| <= 2
    ensures Value256(x) == if |x| == 2 then x[0] as nat * 256 + x[1] as nat else x[0] as nat
  {
    assert x[..1][..0] == [] && (|x| == 1 ==> x[..0] == []);
    assert Value256(x[..1]) == x[0] as nat;
    assert |x| == 1 ==> x[..1] == x;
  }

  lemma CharOfBlock(x: seq<bv8>, k: nat)
    requires |x| >= 3 && k < |Encode(x)|
    ensures if k < 4 then Encode(x)[k] == EncChar(BlockDigit(x[0], x[1], x[2], k))
            else k - 4 < |Encode(x[3..])| && Encode(x)[k] == Encode(x[3..])[k - 4]
  {
    hide First, Second, Third, Fourth, EncChar;
  }

  lemma CharOfLast(x: seq<bv8>, k: nat)
    requires 1 <= |x| <= 2 && k < |Encode(x)|
    ensures |Encode(x)| == 4
    ensures Encode(x)[k] == if k <= |x| then EncChar(BlockDigit(x[0], if |x| == 2 then x[1] else 0, 0, k)) else PAD
  {
    hide First, Second, Third, Fourth, EncChar;
  }

  lemma FirstCharsAre(x: seq<bv8>, k: nat)
    requires |x| >= 3 && k < 4
    ensures k < Sextets(|x|) && k < |Encode(x)| && Encode(x)[k] as nat == ALPHABET[Digit(x, k)] as nat
  {
    hide EncChar, Encode, BlockDigit, Digit;
    EncodeLength(x);
    CharOfBlock(x, k);
    DigitOfBlock(x, k);
    BlockDigitIs(x[0], x[1], x[2], k);
    CharIsInTable(BlockDigit(x[0], x[1], x[2], k));
  }

  lemma LastCharsAre(x: seq<bv8>, k: nat)
    requires 1 <= |x| <= 2 && k < |Encode(x)|
    ensures |Encode(x)| == 4 && Sextets(|x|) == |x| + 1
    ensures Encode(x)[k] as nat == if k < Sextets(|x|) then ALPHABET[Digit(x, k)] as nat else PAD as nat
  {
    hide EncChar, Encode, BlockDigit, Digit;
    CharOfLast(x, k);
    if k <= |x| {
      var b := if |x| == 2 then x[1] else 0;
      DigitOfLast(x, k);
      BlockDigitIs(x[0], b, 0, k);
      CharIsInTable(BlockDigit(x[0], b, 0, k));
    }
  }

  lemma SextetsOfRest(n: nat)
    requires n >= 3
    ensures Sextets(n) == Sextets(n - 3) + 4
  {
  }

  /** Every character of the encoded text is the table's character for its digit of the number;
      what is left is padding. */
  lemma {:induction false} EncodedCharIs(x: seq<bv8>, k: nat)
    requires k < |Encode(x)|
    ensures Encode(x)[k] as nat == if k < Sextets(|x|) then ALPHABET[Digit(x, k)] as nat else PAD as nat
  {
    hide Encode, Digit, Sextets, ALPHABET, EncodedLength;
    EncodeLength(x);
    if |x| >= 3 {
      SextetsOfRest(|x|);
      if k < 4 {
        FirstCharsAre(x, k);
      } else {
        CharOfBlock(x, k);
        EncodedCharIs(x[3..], k - 4);
        if k < Sextets(|x|) { DigitOfBlock(x, k); }
      }
    } else {
      LastCharsAre(x, k);
    }
  }

  lemma ToUrlIsInTable(c: bv8, d: nat)
    requires d < 64 && c as nat == ALPHABET[d] as nat
    ensures c != PAD && ToUrl(c) as nat == URL_ALPHABET[d] as nat
  {
    hide ALPHABET, URL_ALPHABET;
    TableAt(d);
  }

  /** The same for base64url, which has no padding. */
  lemma UrlCharIs(x: seq<bv8>, k: nat)
    requires k < |UrlEncode(x)|
    ensures |UrlEncode(x)| == Sextets(|x|) && UrlEncode(x)[k] as nat == URL_ALPHABET[Digit(x, k)] as nat
  {
    hide UrlEncode, Encode, Digit, Unpadded, ALPHABET, URL_ALPHABET, ToUrl;
    UrlEncodeIsUnpadded(x);
    UnpaddedEncode(x);
    EncodeLength(x);
    SextetsAndPads(|x|);
    EncodedCharIs(x, k);
    ToUrlIsInTable(Encode(x)[k], Digit(x, k));
  }

  lemma SextetsAndPads(n: nat)
    ensures Sextets(n) == EncodedLength(n) - 1 - (if n % 3 == 0 then 0 else 3 - n % 3)
  {
  }

  // -------------------------------------------------------------- the decoding

  predicate InAlphabet(s: seq<bv8>) { forall i | 0 <= i < |s| :: DecChar(s[i]) != INVALID && s[i] != PAD }

  /** The decoding table holds each character's place in the alphabet. */
  lemma TableHoldsPlaces(c: bv8)
    requires DecChar(c) != INVALID && c != PAD
    ensures DecChar(c) < 64 && c as nat == ALPHABET[DecChar(c) as nat] as nat
  {
    TablesAreInverse(0, c);
    CharIsInTable(DecChar(c));
  }

  /** The text read as one number in base 64. */
  function Value64(s: seq<bv8>): (v: nat) {
    if s == [] then 0 else Value64(s[..|s| - 1]) * 64 + DecChar(s[|s| - 1]) as nat
  }

  lemma {:induction false} TextOfConcat(a: seq<bv8>, b: seq<bv8>)
    ensures Value64(a + b) == Value64(a) * Power64(|b|) + Value64(b)
    decreases |b|
  {
    hide DecChar;
    if b == [] {
      assert a + b == a;
    } else {
      var c := b[..|b| - 1];
      assert (a + b)[..|a + b| - 1] == a + c;
      TextOfConcat(a, c);
      Assoc(Value64(a), Power64(|c|), 64);
      Dist(64, Value64(a) * Power64(|c|), Value64(c));
    }
  }

  lemma JoinedBits(p: bv8, y: bv8)
    ensures p < 64 && y < 4 ==> ((p << 2) | y) as nat == p as nat * 4 + y as nat
    ensures p < 16 && y < 16 ==> ((p << 4) | y) as nat == p as nat * 16 + y as nat
    ensures p < 4 && y < 64 ==> ((p << 6) | y) as nat == p as nat * 64 + y as nat
  {
  }

  lemma LostBits(t: bv8)
    ensures t << 4 == (t & 0x0f) << 4 && t << 6 == (t & 0x03) << 6 && t & 0x0f < 16 && t & 0x03 < 4
    ensures t < 64 ==> t >> 4 < 4 && t >> 2 < 16
  {
  }

  lemma ByteParts(s: bv8, t: bv8, u: bv8, v: bv8)
    requires s < 64 && t < 64 && u < 64 && v < 64
    ensures Byte0(s, t) as nat == s as nat * 4 + t as nat / 16
    ensures Byte1(t, u) as nat == t as nat % 16 * 16 + u as nat / 4
    ensures Byte2(u, v) as nat == u as nat % 4 * 64 + v as nat
  {
    Parts(t);
    Parts(u);
    LostBits(t);
    LostBits(u);
    JoinedBits(s, t >> 4);
    JoinedBits(t & 0x0f, u >> 2);
    JoinedBits(u & 0x03, v);
  }

  lemma FourPlaces(s: nat, t: nat, u: nat, v: nat)
    requires s < 64 && t < 64 && u < 64 && v < 64
    ensures (s * 4 + t / 16) * 65536 + (t % 16 * 16 + u / 4) * 256 + (u % 4 * 64 + v) == s * 262144 + t * 4096 + u * 64 + v
  {
  }

  lemma TextOfFour(f: seq<bv8>)
    requires |f| == 4
    ensures Value64(f) == DecChar(f[0]) as nat * 262144 + DecChar(f[1]) as nat * 4096 + DecChar(f[2]) as nat * 64 + DecChar(f[3]) as nat
  {
    hide DecChar;
    TextOfThree(f[..3]);
  }

  lemma TextOfThree(f: seq<bv8>)
    requires |f| == 3
    ensures Value64(f) == DecChar(f[0]) as nat * 4096 + DecChar(f[1]) as nat * 64 + DecChar(f[2]) as nat
  {
    hide DecChar;
    TextOfTwo(f[..2]);
  }

  lemma TextOfTwo(f: seq<bv8>)
    requires |f| == 2
    ensures Value64(f) == DecChar(f[0]) as nat * 64 + DecChar(f[1]) as nat
  {
    hide DecChar;
    assert f[..1][..0] == [];
    assert Value64(f[..1]) == DecChar(f[0]) as nat;
  }

  lemma PlacesAreSmall(f: seq<bv8>)
    requires InAlphabet(f)
    ensures forall i | 0 <= i < |f| :: DecChar(f[i]) < 64 && DecChar(f[i]) as nat < 64
  {
    forall i | 0 <= i < |f|
      ensures DecChar(f[i]) < 64 && DecChar(f[i]) as nat < 64
    {
      TablesAreInverse(0, f[i]);
      SmallNumber(DecChar(f[i]));
    }
  }

  lemma SmallNumber(i: bv8)
    ensures i < 64 ==> i as nat < 64
  {
  }

  /** A block of four characters decodes to the bytes of its number. */
  lemma BlockNumber(q: seq<bv8>)
    requires |q| == 4 && InAlphabet(q)
    ensures var b := BlockBytes(Values(q), 0); |b| == 3 && Value256(b) == Value64(q)
  {
    hide DecChar, Byte0, Byte1, Byte2, Value64, Value256;
    PlacesAreSmall(q);
    var s, t, u, v := DecChar(q[0]), DecChar(q[1]), DecChar(q[2]), DecChar(q[3]);
    ByteParts(s, t, u, v);
    FourPlaces(s as nat, t as nat, u as nat, v as nat);
    TextOfFour(q);
    ValueOfThree(BlockBytes(Values(q), 0));
  }

  lemma FirstBlockDecodes(q: seq<bv8>)
    requires |q| >= 4 && |q| % 4 == 0 && InAlphabet(q[..4])
    ensures DecodeBlocks(q).bytes == BlockBytes(Values(q[..4]), 0) + DecodeBlocks(q[4..]).bytes
  {
    hide DecChar, Byte0, Byte1, Byte2;
    CountPadsOfFour(q[..4]);
  }

  /** The rest of the bits is dropped. */
  function Share(v: nat, d: nat): (q: nat)
    requires d > 0
  {
    v / d
  }

  lemma JoinText(a: nat, p: nat, d: nat, r: nat, w: nat)
    requires d > 0 && w == p * d
    ensures a * p + Share(r, d) == Share(a * w + r, d)
  {
    var q, t := Euclid(r, d);
    Assoc(a, p, d);
    Dist(d, a * p, q);
    DivIs(a * w + r, d, a * p + q, t);
  }

  lemma PaddedBytes(f: seq<bv8>)
    requires InAlphabet(f) && 2 <= |f| <= 3
    ensures var b := DecodeBlocks(f + Pads(4 - |f|)).bytes;
            b == [Byte0(DecChar(f[0]), DecChar(f[1]))] + (if |f| == 3 then [Byte1(DecChar(f[1]), DecChar(f[2]))] else [])
  {
    hide DecChar, Byte0, Byte1, Byte2, Pads;
    var q := f + Pads(4 - |f|);
    CountPadsOfFour(q[..4]);
    assert q[..4] == q;
  }

  lemma LastTwo(f: seq<bv8>)
    requires InAlphabet(f) && |f| == 2
    ensures var b := DecodeBlocks(f + Pads(2)).bytes; |b| == 1 && Value256(b) == Value64(f) / 16
  {
    hide DecChar, Byte0, Byte1, Value64, Value256, Pads, DecodeBlocks;
    PlacesAreSmall(f);
    PaddedBytes(f);
    ByteParts(DecChar(f[0]), DecChar(f[1]), 0, 0);
    ValueOfLast(DecodeBlocks(f + Pads(2)).bytes);
    TextOfTwo(f);
    LastPlaces(DecChar(f[0]) as nat, DecChar(f[1]) as nat, 0);
  }

  lemma LastThree(f: seq<bv8>)
    requires InAlphabet(f) && |f| == 3
    ensures var b := DecodeBlocks(f + Pads(1)).bytes; |b| == 2 && Value256(b) == Value64(f) / 4
  {
    hide DecChar, Byte0, Byte1, Value64, Value256, Pads, DecodeBlocks;
    PlacesAreSmall(f);
    PaddedBytes(f);
    ByteParts(DecChar(f[0]), DecChar(f[1]), DecChar(f[2]), 0);
    ValueOfLast(DecodeBlocks(f + Pads(1)).bytes);
    TextOfThree(f);
    LastPlaces(DecChar(f[0]) as nat, DecChar(f[1]) as nat, DecChar(f[2]) as nat);
  }

  lemma LastPlaces(s: nat, t: nat, u: nat)
    ensures (s * 64 + t) / 16 == s * 4 + t / 16
    ensures t < 64 ==> (s * 4096 + t * 64 + u) / 4 == (s * 4 + t / 16) * 256 + t % 16 * 16 + u / 4
  {
  }

  predicate IsNumberOf(b: seq<bv8>, f: seq<bv8>) { Value256(b) == Share(Value64(f), Fill(|b|)) }

  lemma NextValues(block: seq<bv8>, rest: seq<bv8>, f: seq<bv8>)
    requires |f| >= 4 && |block| == 3 && Value256(block) == Value64(f[..4])
    ensures Value256(block + rest) == Value64(f[..4]) * Power256(|rest|) + Value256(rest)
    ensures Value64(f) == Value64(f[..4]) * Power64(|f| - 4) + Value64(f[4..])
  {
    hide Value64, Value256, Power64, Power256;
    ValueOfConcat(block, rest);
    assert f == f[..4] + f[4..];
    TextOfConcat(f[..4], f[4..]);
  }

  lemma NextNumber(block: seq<bv8>, rest: seq<bv8>, f: seq<bv8>)
    requires |f| >= 4 && |block| == 3 && Sextets(|rest|) == |f| - 4 && Fill(|rest| + 3) == Fill(|rest|)
    requires Value256(block) == Value64(f[..4]) && IsNumberOf(rest, f[4..])
    ensures IsNumberOf(block + rest, f)
  {
    hide Value64, Value256, Power64, Power256, Fill, Sextets, Share;
    NextValues(block, rest, f);
    BitsFit(|rest|);
    JoinText(Value64(f[..4]), Power256(|rest|), Fill(|rest|), Value64(f[4..]), Power64(|f| - 4));
  }

  lemma {:induction false} BlocksNumber(f: seq<bv8>)
    requires InAlphabet(f) && |f| % 4 != 1
    ensures var r := DecodeBlocks(f + Pads(MissingPads(|f|))); r.ok && |r.bytes| == |f| * 3 / 4 && IsNumberOf(r.bytes, f)
    decreases |f|
  {
    hide DecChar, DecodeBlocks, IsNumberOf, BlockBytes, Values, Pads, MissingPads, Value64, Value256, Fill, Sextets;
    BlocksWithoutPads(f);
    if |f| >= 4 {
      var pads := Pads(MissingPads(|f|));
      MissingPadsIs(|f[4..]|, MissingPads(|f|));
      BlocksNumber(f[4..]);
      assert (f + pads)[..4] == f[..4] && (f + pads)[4..] == f[4..] + pads;
      FirstBlockDecodes(f + pads);
      BlockNumber(f[..4]);
      ThreeOfFour(|f| - 4);
      BytesOfText(|f| - 4);
      NextNumber(BlockBytes(Values(f[..4]), 0), DecodeBlocks(f[4..] + pads).bytes, f);
    } else {
      ShortNumber(f);
    }
  }

  lemma BytesOfText(m: nat)
    requires m % 4 != 1
    ensures Sextets(m * 3 / 4) == m && Fill(m * 3 / 4 + 3) == Fill(m * 3 / 4) > 0
  {
  }

  lemma ShortNumber(f: seq<bv8>)
    requires InAlphabet(f) && |f| < 4 && |f| != 1
    ensures IsNumberOf(DecodeBlocks(f + Pads(MissingPads(|f|))).bytes, f)
  {
    hide DecChar, Pads, MissingPads, DecodeBlocks, Value64, Value256;
    if f == [] {
      MissingPadsIs(0, 0);
      EmptyDecodes();
      EmptyNumbers();
      assert f + Pads(0) == [];
    } else {
      MissingPadsIs(|f|, 4 - |f|);
      if |f| == 3 { LastThree(f); } else { LastTwo(f); }
    }
  }

  lemma EmptyNumbers()
    ensures Value256([]) == Value64([]) == 0
  {
  }

  /** Text of the alphabet that is not one character too long decodes to the bytes of its number; the
      bits that fill no byte are dropped. */
  lemma DecodedNumberIs(f: seq<bv8>)
    requires f != [] && InAlphabet(f) && |f| % 4 != 1
    ensures var r := Decode(f); r.ok && |r.bytes| == |f| * 3 / 4 && Value256(r.bytes) == Value64(f) / Fill(|r.bytes|)
  {
    hide DecodeBlocks, Value64, Value256, Pads, MissingPads, DecChar;
    FilterOfClean(f);
    BlocksNumber(f);
  }
}
