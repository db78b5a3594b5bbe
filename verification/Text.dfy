/** C-string helpers used by the HTTP reader: the library's own substring search, its
    hexadecimal and decimal number readers, and what they mean on well-formed text.
    Bytes are modelled as `char`; a C string is the text before the first NUL. */
module Text {

  const TWO_32: nat := 0x1_0000_0000
  const INT_MAX: nat := 0x7fff_ffff

  function Min(a: nat, b: nat): nat { if a < b then a else b }

  /** The part of a character buffer that a C string function sees. */
  function CString(s: string): (r: string)
    ensures r <= s && '\0' !in r
    ensures |r| < |s| ==> s[|r|] == '\0'
  {
    if s == "" || s[0] == '\0' then "" else [s[0]] + CString(s[1..])
  }

  lemma {:induction false} CStringOfNulFree(s: string, pad: string)
    requires '\0' !in s && (pad == "" || pad[0] == '\0')
    ensures CString(s + pad) == s
  {
    if s == "" {
      assert s + pad == pad;
    } else {
      assert s[0] in s && (s + pad)[0] == s[0];
      assert (s + pad)[1..] == s[1..] + pad;
      CStringOfNulFree(s[1..], pad);
    }
  }

  // ---------------------------------------------------------------- searching

  /** `needle` occurs in `s` at index `i`. */
  predicate OccursAt(s: string, needle: string, i: nat) {
    i + |needle| <= |s| && s[i..i + |needle|] == needle
  }

  ghost predicate Contains(s: string, needle: string) {
    exists i: nat :: OccursAt(s, needle, i)
  }

  /** The library's matcher: on a mismatch it drops the partial match without stepping back. */
  function Match(s: string, needle: string, at: nat, matched: nat): (r: int)
    requires at <= |s| && matched < |needle| && matched <= at
    ensures -1 <= r
    decreases |s| - at
  {
    if at == |s| then -1
    else if needle[matched] != s[at] then Match(s, needle, at + 1, 0)
    else if matched + 1 == |needle| then at + 1 - (matched + 1)
    else Match(s, needle, at + 1, matched + 1)
  }

  function Find(s: string, needle: string, from: nat): (r: int)
    ensures -1 <= r
  {
    if s == "" || needle == "" || from > |s| then -1 else Match(s, needle, from, 0)
  }

  method StrPos(haystack: string, needle: string, offset: nat) returns (r: int)
    ensures r == Find(haystack, needle, offset)
  {
    if |haystack| == 0 || |needle| == 0 {
      return -1;
    }
    var hidx, nidx := offset, 0;
    while hidx < |haystack|
      invariant nidx < |needle| && nidx <= hidx
      invariant offset <= |haystack| ==> hidx <= |haystack|
      invariant offset <= |haystack| ==> Match(haystack, needle, hidx, nidx) == Find(haystack, needle, offset)
      invariant offset > |haystack| ==> hidx == offset
    {
      if needle[nidx] != haystack[hidx] {
        hidx := hidx + 1;
        nidx := 0;
      } else {
        nidx := nidx + 1;
        hidx := hidx + 1;
        if nidx == |needle| {
          return hidx - nidx;
        }
      }
    }
    return -1;
  }

  /** A reported position is a real occurrence, whatever the matcher skipped. */
  lemma {:induction false} MatchIsSound(s: string, needle: string, at: nat, matched: nat)
    requires at <= |s| && matched < |needle| && matched <= at
    requires s[at - matched..at] == needle[..matched]
    ensures var r := Match(s, needle, at, matched); r >= 0 ==> OccursAt(s, needle, r)
    decreases |s| - at
  {
    if at == |s| {
    } else if needle[matched] != s[at] {
      MatchIsSound(s, needle, at + 1, 0);
    } else {
      assert s[at - matched..at + 1] == s[at - matched..at] + [s[at]];
      assert needle[..matched + 1] == needle[..matched] + [needle[matched]];
      if matched + 1 < |needle| {
        MatchIsSound(s, needle, at + 1, matched + 1);
      }
    }
  }

  /** Text in front that holds no occurrence, and ends in a character foreign to the
      needle, is skipped without leaving a partial match behind. */
  lemma {:induction false} MatchSkips(pre: string, s: string, needle: string, at: nat, matched: nat)
    requires at <= |pre| && matched < |needle| && matched <= at && pre <= s
    requires Match(pre, needle, at, matched) == -1
    requires at == |pre| ==> matched == 0
    requires pre != "" ==> pre[|pre| - 1] !in needle
    ensures Match(s, needle, at, matched) == Match(s, needle, |pre|, 0)
    decreases |pre| - at
  {
    if at < |pre| {
      assert s[at] == pre[at];
      if needle[matched] != pre[at] {
        MatchSkips(pre, s, needle, at + 1, 0);
      } else {
        assert needle[matched] in needle;
        MatchSkips(pre, s, needle, at + 1, matched + 1);
      }
    }
  }

  lemma {:induction false} MatchCompletes(s: string, needle: string, start: nat, matched: nat)
    requires matched < |needle| && OccursAt(s, needle, start)
    ensures Match(s, needle, start + matched, matched) == start
    decreases |needle| - matched
  {
    assert s[start..start + |needle|][matched] == s[start + matched];
    if matched + 1 < |needle| {
      MatchCompletes(s, needle, start, matched + 1);
    }
  }

  /** Where the search meets a token: exactly behind text that does not contain it. */
  lemma FindsFirst(pre: string, needle: string, post: string)
    requires needle != "" && !Contains(pre, needle)
    requires pre != "" ==> pre[|pre| - 1] !in needle
    ensures Find(pre + needle + post, needle, 0) == |pre|
  {
    var s := pre + needle + post;
    MatchIsSound(pre, needle, 0, 0);
    assert Match(pre, needle, 0, 0) == -1;
    MatchSkips(pre, s, needle, 0, 0);
    assert s[|pre|..|pre| + |needle|] == needle;
    MatchCompletes(s, needle, |pre|, 0);
  }

  lemma FindsNothing(s: string, needle: string)
    requires !Contains(s, needle)
    ensures Find(s, needle, 0) == -1
  {
    if s != "" && needle != "" {
      MatchIsSound(s, needle, 0, 0);
    }
  }

  /** Searching from inside text whose characters cannot start the needle. */
  lemma {:induction false} MatchSlides(s: string, needle: string, at: nat, end: nat)
    requires at <= end && OccursAt(s, needle, end) && needle != ""
    requires forall i | at <= i < end :: s[i] != needle[0]
    ensures Match(s, needle, at, 0) == end
    decreases end - at
  {
    if at < end {
      MatchSlides(s, needle, at + 1, end);
    } else {
      MatchCompletes(s, needle, end, 0);
    }
  }

  // ------------------------------------------------------------------ numbers

  predicate IsHex(c: char) { '0' <= c <= '9' || 'a' <= c <= 'f' || 'A' <= c <= 'F' }

  predicate IsDecimal(c: char) { '0' <= c <= '9' }

  function DigitValue(c: char): (d: nat)
    ensures IsHex(c) ==> d < 16
    ensures IsDecimal(c) ==> d < 10
  {
    if '0' <= c <= '9' then c as int - '0' as int
    else if 'a' <= c <= 'f' then c as int - 'a' as int + 10
    else if 'A' <= c <= 'F' then c as int - 'A' as int + 10
    else c as int
  }

  /** Positional value of a numeral, most significant digit first. */
  function Value(s: string, radix: nat): (v: nat) {
    if s == "" then 0 else Value(s[..|s| - 1], radix) * radix + DigitValue(s[|s| - 1])
  }

  /** The numeral of a number in hexadecimal, as a sender of chunks would write it. */
  function Hex(n: nat): (s: string)
    ensures s != "" && forall c | c in s :: IsHex(c)
  {
    var last := "0123456789abcdef"[n % 16];
    if n < 16 then [last] else Hex(n / 16) + [last]
  }

  lemma {:induction false} ValueOfHex(n: nat)
    ensures Value(Hex(n), 16) == n
  {
    assert DigitValue("0123456789abcdef"[n % 16]) == n % 16;
    var s := Hex(n);
    if n < 16 {
      assert s[..|s| - 1] == "";
    } else {
      assert s[..|s| - 1] == Hex(n / 16);
      ValueOfHex(n / 16);
    }
  }

  /** Shift in four more bits of a 32-bit accumulator. */
  function ShiftIn(val: nat, c: char): (r: nat)
    ensures r < TWO_32
  {
    (val * 16) % TWO_32 + DigitValue(c) % 16
  }

  function Hex2IntFrom(s: string, val: nat): (r: nat)
    requires val < TWO_32
    ensures r < TWO_32
  {
    if s == "" then val else Hex2IntFrom(s[1..], ShiftIn(val, s[0]))
  }

  method Hex2Int(hex: string) returns (val: nat)
    ensures val == Hex2IntFrom(CString(hex), 0)
  {
    val := 0;
    var i := 0;
    while i < |CString(hex)|
      invariant 0 <= i <= |CString(hex)| && val < TWO_32
      invariant Hex2IntFrom(CString(hex)[i..], val) == Hex2IntFrom(CString(hex), 0)
    {
      val := ShiftIn(val, CString(hex)[i]);
      i := i + 1;
    }
  }

  lemma ValueSnoc(s: string, c: char, radix: nat)
    ensures Value(s + [c], radix) == Value(s, radix) * radix + DigitValue(c)
  {
    assert (s + [c])[..|s|] == s;
  }

  lemma ShiftInIsModular(v: nat, c: char)
    requires IsHex(c)
    ensures ShiftIn(v % TWO_32, c) == (v * 16 + DigitValue(c)) % TWO_32
  {
    var r := v % TWO_32;
    var low := (r * 16) % TWO_32;
    assert low == 16 * (r % 0x1000_0000);
    assert v * 16 + DigitValue(c) == (16 * (v / TWO_32) + (r * 16) / TWO_32) * TWO_32 + (low + DigitValue(c));
    RemainderIs(v * 16 + DigitValue(c), 16 * (v / TWO_32) + (r * 16) / TWO_32, low + DigitValue(c));
  }

  lemma RemainderIs(x: int, q: int, r: int)
    requires 0 <= r < TWO_32 && x == q * TWO_32 + r
    ensures x % TWO_32 == r
  {
  }

  /** The 32-bit reader computes the numeral's value modulo 2^32, leading zeros or not. */
  lemma {:induction false} Hex2IntIsValue(done: string, s: string)
    requires forall c | c in done + s :: IsHex(c)
    ensures Hex2IntFrom(s, Value(done, 16) % TWO_32) == Value(done + s, 16) % TWO_32
    decreases |s|
  {
    if s == "" {
      assert done + s == done;
    } else {
      var v := Value(done, 16);
      assert s[0] in done + s;
      ValueSnoc(done, s[0], 16);
      ShiftInIsModular(v, s[0]);
      assert done + s == (done + [s[0]]) + s[1..];
      Hex2IntIsValue(done + [s[0]], s[1..]);
    }
  }

  /** The library's `atoi` on text without leading blanks or sign. */
  function Atoi(s: string): (r: nat) { AtoiFrom(s, 0) }

  function AtoiFrom(s: string, val: nat): (r: nat)
    ensures val <= r
  {
    if s == "" || !IsDecimal(s[0]) then val else AtoiFrom(s[1..], val * 10 + DigitValue(s[0]))
  }

  lemma {:induction false} AtoiIsValue(done: string, s: string)
    requires forall c | c in s :: IsDecimal(c)
    ensures AtoiFrom(s, Value(done, 10)) == Value(done + s, 10)
    decreases |s|
  {
    if s == "" {
      assert done + s == done;
    } else {
      ValueSnoc(done, s[0], 10);
      assert done + s == (done + [s[0]]) + s[1..];
      assert s[0] in s;
      AtoiIsValue(done + [s[0]], s[1..]);
    }
  }
}
