/** What the decoder makes of a body in chunked framing (section 4.1 of RFC 7230): the text
    a sender writes, the decoder driven until it reports completion, and exactly when the
    two agree. */
module ChunkFraming {
  import opened Text
  import opened HttpReader

  /** One chunk as written: size digits, optional extensions, data. */
  datatype Chunk = Chunk(digits: string, ext: string, data: string)

  function SizeLine(digits: string, ext: string): (s: string) { digits + ext + "\r\n" }

  predicate ValidSizeLine(digits: string, ext: string, bufLen: nat) {
    && digits != "" && (forall c | c in digits :: IsHex(c))
    && (ext == "" || ext[0] == ';')
    && '\r' !in ext && '\n' !in ext && '\0' !in ext
    && |digits| + |ext| + 2 <= bufLen
  }

  /** A chunk of a body; its length leaves room for the two trailing bytes in an `int`. */
  predicate ValidChunk(c: Chunk, bufLen: nat) {
    && ValidSizeLine(c.digits, c.ext, bufLen)
    && Value(c.digits, 16) == |c.data| && 0 < |c.data| <= INT_MAX - 2
  }

  predicate ValidChunks(chunks: seq<Chunk>, bufLen: nat) {
    forall i | 0 <= i < |chunks| :: ValidChunk(chunks[i], bufLen)
  }

  /** The closing chunk: a size of zero, then trailers and whatever else follows. */
  datatype Last = Last(digits: string, ext: string, trailers: string)

  predicate ValidLast(last: Last, bufLen: nat) {
    ValidSizeLine(last.digits, last.ext, bufLen) && Value(last.digits, 16) == 0
  }

  function LastText(last: Last): (s: string) { SizeLine(last.digits, last.ext) + last.trailers }

  function Wire(chunks: seq<Chunk>, last: Last): (s: string) {
    if chunks == [] then LastText(last)
    else SizeLine(chunks[0].digits, chunks[0].ext) + (chunks[0].data + "\r\n" + Wire(chunks[1..], last))
  }

  function Body(chunks: seq<Chunk>): (s: string) {
    if chunks == [] then "" else chunks[0].data + Body(chunks[1..])
  }

  /** A sender needs nothing special: any non-empty piece of text is a valid chunk. */
  lemma PlainChunkIsValid(data: string)
    requires 0 < |data| <= INT_MAX - 2
    ensures ValidChunk(Chunk(Hex(|data|), "", data), 2048)
  {
    ValueOfHex(|data|);
    HexIsShort(|data|, 8);
  }

  lemma {:induction false} HexIsShort(n: nat, k: nat)
    requires 0 < k && n < Power16(k)
    ensures |Hex(n)| <= k
  {
    if n >= 16 {
      HexIsShort(n / 16, k - 1);
    }
  }

  function Power16(k: nat): (p: nat)
    ensures p > 0
  {
    if k == 0 then 1 else 16 * Power16(k - 1)
  }

  // ------------------------------------------------------------- size lines

  lemma NotContained(s: string, needle: string, k: nat)
    requires k < |needle| && needle[k] !in s
    ensures !Contains(s, needle)
  {
    forall i: nat
      ensures !OccursAt(s, needle, i)
    {
      assert i + |needle| <= |s| ==> s[i..i + |needle|][k] == s[i + k] && s[i + k] in s;
    }
  }

  /** Where the digits of a size line end. */
  lemma DigitsEnd(digits: string, ext: string, bufLen: nat)
    requires ValidSizeLine(digits, ext, bufLen)
    ensures Find(SizeLine(digits, ext), ";", 0) == if ext == "" then -1 else |digits|
    ensures ext == "" ==> Find(SizeLine(digits, ext), "\r\n", 0) == |digits|
  {
    hide Find, Match;
    var s := SizeLine(digits, ext);
    assert digits[|digits| - 1] in digits;
    if ext == "" {
      assert s == digits + "\r\n" + "";
      NotContained(s, ";", 0);
      FindsNothing(s, ";");
      NotContained(digits, "\r\n", 0);
      FindsFirst(digits, "\r\n", "");
    } else {
      NotContained(digits, ";", 0);
      assert s == digits + ";" + (ext[1..] + "\r\n");
      FindsFirst(digits, ";", ext[1..] + "\r\n");
    }
  }

  /** Whatever extensions follow, a size line announces the value of its digits. */
  lemma SizeInSizeLine(digits: string, ext: string, bufLen: nat)
    requires ValidSizeLine(digits, ext, bufLen) && Value(digits, 16) <= INT_MAX
    ensures SizeIn(SizeLine(digits, ext)) == Value(digits, 16)
  {
    hide Find, Match, Hex2IntFrom, Value;
    var s := SizeLine(digits, ext);
    assert '\0' !in s;
    CStringOfNulFree(s, "");
    assert s + "" == s;
    DigitsEnd(digits, ext, bufLen);
    assert s[..|digits|] == digits;
    assert "" + digits == digits;
    Hex2IntIsValue("", digits);
    assert Value("", 16) == 0 by { EmptyNumeral(); }
  }

  lemma EmptyNumeral()
    ensures Value("", 16) == 0
  {
  }

  /** The line reader takes a size line whole as soon as all of it may be taken. */
  lemma SizeLineIsALine(digits: string, ext: string, bufLen: nat, rest: string, limit: nat)
    requires ValidSizeLine(digits, ext, bufLen)
    requires |SizeLine(digits, ext)| <= limit <= |SizeLine(digits, ext) + rest|
    ensures LineLen(SizeLine(digits, ext) + rest, limit) == |SizeLine(digits, ext)|
  {
    var line := SizeLine(digits, ext);
    var s := line + rest;
    forall i | 0 <= i < |line| - 1
      ensures s[i] != '\n'
    {
      assert s[i] == line[i] && (i < |digits| ==> line[i] == digits[i] && digits[i] in digits);
      assert |digits| <= i < |digits| + |ext| ==> line[i] == ext[i - |digits|] && ext[i - |digits|] in ext;
    }
    LineLenIs(s, limit, |line|);
  }

  lemma SizeStep(cs: ChunkState, digits: string, ext: string, bufLen: nat, rest: string, limit: nat, toString: bool)
    requires ValidSizeLine(digits, ext, bufLen) && Value(digits, 16) <= INT_MAX && cs.state == 0
    requires |SizeLine(digits, ext)| <= limit <= |SizeLine(digits, ext) + rest|
    ensures ChunkStep(cs, SizeLine(digits, ext) + rest, limit, toString) ==
            Step(ChunkState(1, Value(digits, 16), 0), |SizeLine(digits, ext)|, if Value(digits, 16) == 0 then -1 else 0, "")
  {
    var line := SizeLine(digits, ext);
    SizeLineIsALine(digits, ext, bufLen, rest, limit);
    SizeInSizeLine(digits, ext, bufLen);
    assert (line + rest)[..|line|] == line;
    assert '\0' !in line;
  }

  // -------------------------------------------------------------- chunk data

  /** Inside a chunk of `size` bytes with `left` still to come. */
  predicate InChunk(cs: ChunkState, left: string, size: int) {
    cs.state == 1 && cs.chunkedSize == size && cs.dataLen == size - |left| && |left| <= size
  }

  /** One call inside a chunk. A read ends within the data, or between the closing CR and
      LF, or behind them; only the middle case puts a byte into the output that is no data. */
  lemma DataStep(cs: ChunkState, left: string, size: int, rest: string, limit: nat)
    requires InChunk(cs, left, size) && limit <= |left + "\r\n" + rest|
    ensures
      var s := left + "\r\n" + rest;
      var n := LineLen(s, limit);
      var step := ChunkStep(cs, s, limit, false);
      && n <= |left| + 2
      && (n == 0 ==> step == Step(cs, 0, if left == "" then -1 else 0, ""))
      && (0 < n <= |left| ==> step.taken == step.olen == n && step.copied == left[..n] && InChunk(step.next, left[n..], size))
      && (n == |left| + 1 ==> step == Step(ChunkState(1, size, size + 1), n, n, left + "\r"))
      && (n == |left| + 2 ==> step == Step(ChunkState(0, size, size), n, n, left))
  {
    var s := left + "\r\n" + rest;
    var n := LineLen(s, limit);
    assert s[|left| + 1] == '\n';
    assert n <= |left| ==> s[..n] == left[..n];
    assert n == |left| + 1 ==> s[..n] == left + "\r";
    assert n == |left| + 2 ==> s[..n][..|left|] == left;
  }

  /** Behind a read that split the closing CRLF, the line feed is swallowed. */
  lemma LineFeedStep(size: int, rest: string, limit: nat)
    requires 0 <= size && 0 < limit <= |"\n" + rest|
    ensures ChunkStep(ChunkState(1, size, size + 1), "\n" + rest, limit, false) ==
            Step(ChunkState(0, size, size), 1, 1, "")
  {
    assert ("\n" + rest)[..1] == "\n";
  }

  // ----------------------------------------------- everything has arrived

  /** The text the decoder has produced, and whether it has reported completion. */
  datatype Decoded = Decoded(payload: string, complete: bool)

  function Limit(s: string, bufLen: nat, toString: bool): (n: nat)
    ensures n <= |s|
  {
    if toString then |s| else Min(|s|, bufLen)
  }

  /** Calls the decoder until it reports completion or cannot take a byte, the whole text
      having arrived beforehand. */
  function DecodeAll(cs: ChunkState, s: string, bufLen: nat, toString: bool): (r: Decoded)
    decreases |s|
  {
    var step := ChunkStep(cs, s, Limit(s, bufLen, toString), toString);
    if step.olen == -1 then Decoded("", true)
    else if step.taken == 0 then Decoded("", false)
    else
      var rest := DecodeAll(step.next, s[step.taken..], bufLen, toString);
      Decoded(step.copied + rest.payload, rest.complete)
  }

  /** One call that takes bytes and does not report completion, then the rest. */
  lemma DecodeUnfolds(cs: ChunkState, s: string, bufLen: nat, toString: bool, step: Step)
    requires step == ChunkStep(cs, s, Limit(s, bufLen, toString), toString)
    requires step.olen != -1 && step.taken > 0
    ensures var rest := DecodeAll(step.next, s[step.taken..], bufLen, toString);
            DecodeAll(cs, s, bufLen, toString) == Decoded(step.copied + rest.payload, rest.complete)
  {
    hide ChunkStep, LineLen;
  }

  lemma DecodeCases(cs: ChunkState, s: string, bufLen: nat, toString: bool, step: Step)
    requires step == ChunkStep(cs, s, Limit(s, bufLen, toString), toString)
    ensures var r := DecodeAll(cs, s, bufLen, toString);
            && (step.olen == -1 ==> r == Decoded("", true))
            && (step.olen != -1 && r.complete ==> step.taken > 0)
  {
    hide ChunkStep, LineLen;
  }

  /** How many bytes follow the last line feed. */
  function TailLen(s: string): (n: nat)
    ensures n <= |s|
  {
    if s == "" || s[|s| - 1] == '\n' then 0 else 1 + TailLen(s[..|s| - 1])
  }

  /** The buffer ends exactly between the data's last byte and the line feed. */
  predicate SplitByBuffer(data: string, bufLen: nat)
    requires bufLen > 0
  {
    TailLen(data) % bufLen == bufLen - 1
  }

  /** What the string form adds behind a chunk's data. */
  function Closing(data: string): (s: string) { if data == "" || data[|data| - 1] == '\n' then "" else "\r\n" }

  function ChunkOutput(data: string, bufLen: nat, toString: bool): (s: string)
    requires bufLen > 0
  {
    if toString then data + Closing(data)
    else data + (if SplitByBuffer(data, bufLen) then "\r" else "")
  }

  function Output(chunks: seq<Chunk>, bufLen: nat, toString: bool): (s: string)
    requires bufLen > 0
  {
    if chunks == [] then "" else ChunkOutput(chunks[0].data, bufLen, toString) + Output(chunks[1..], bufLen, toString)
  }

  lemma {:induction false} TailLenOfConcat(a: string, b: string)
    ensures TailLen(a + b) == if '\n' in b then TailLen(b) else |b| + TailLen(a)
    decreases |b|
  {
    if b == "" {
      assert a + b == a;
    } else {
      var c := b[|b| - 1];
      assert c in b;
      assert (a + b)[..|a + b| - 1] == a + b[..|b| - 1];
      TailLenOfConcat(a, b[..|b| - 1]);
      assert b == b[..|b| - 1] + [c];
    }
  }

  lemma TailLenWithoutLf(s: string)
    requires '\n' !in s
    ensures TailLen(s) == |s|
  {
    TailLenOfConcat("", s);
    assert "" + s == s;
  }

  lemma RemainderPlus(x: nat, m: nat)
    requires m > 0
    ensures (x + m) % m == x % m
  {
    assert x == x / m * m + x % m;
    assert x + m == (x / m + 1) * m + x % m;
    RemainderUnique(x + m, m, x / m + 1, x % m);
  }

  lemma RemainderUnique(x: nat, m: nat, q: int, r: nat)
    requires m > 0 && r < m && x == q * m + r
    ensures x % m == r
  {
    var d := q - x / m;
    assert d * m == x % m - r;
    assert (d > 0 ==> d * m >= m) && (d < 0 ==> d * m + m <= 0);
  }

  /** Reading a whole line of the data, or a full buffer of it, leaves the question whether
      the buffer will split the closing CRLF unchanged. */
  lemma SplitIsStable(left: string, n: nat, bufLen: nat)
    requires 0 < n <= |left| && bufLen > 0
    requires left[n - 1] == '\n' || (n == bufLen && '\n' !in left[..n])
    ensures SplitByBuffer(left, bufLen) == SplitByBuffer(left[n..], bufLen)
  {
    var a, b := left[..n], left[n..];
    assert left == a + b;
    TailLenOfConcat(a, b);
    if '\n' !in b {
      TailLenWithoutLf(b);
      if left[n - 1] != '\n' {
        TailLenWithoutLf(a);
        RemainderPlus(|b|, bufLen);
      }
    }
  }

  /** A read that may take everything stops in the middle of the closing CRLF exactly when
      the buffer is one byte too short. */
  lemma DataLineLen(left: string, rest: string, bufLen: nat)
    requires bufLen > 0
    ensures
      var s := left + "\r\n" + rest;
      var n := LineLen(s, Min(|s|, bufLen));
      && 0 < n <= |left| + 2
      && (n <= |left| ==> left[n - 1] == '\n' || (n == bufLen && '\n' !in left[..n]))
      && (n > |left| ==> SplitByBuffer(left, bufLen) == (n == |left| + 1))
  {
    var s := left + "\r\n" + rest;
    var n := LineLen(s, Min(|s|, bufLen));
    assert s[|left| + 1] == '\n';
    assert forall i | 0 <= i < Min(n, |left|) :: s[i] == left[i];
    if n > |left| {
      assert forall i | 0 <= i < |left| :: left[i] == s[i] != '\n';
      TailLenWithoutLf(left);
      if n == |left| + 1 {
        RemainderUnique(|left|, bufLen, 0, |left|);
      } else {
        RemainderUnique(|left|, bufLen, 0, |left|);
      }
    }
  }

  lemma {:induction false} DecodesData(cs: ChunkState, left: string, size: int, rest: string, bufLen: nat)
    requires InChunk(cs, left, size) && bufLen > 0
    ensures
      var after := DecodeAll(ChunkState(0, size, size), rest, bufLen, false);
      DecodeAll(cs, left + "\r\n" + rest, bufLen, false) ==
      Decoded(ChunkOutput(left, bufLen, false) + after.payload, after.complete)
    decreases |left|
  {
    hide ChunkStep, DecodeAll, LineLen, SplitByBuffer;
    var s := left + "\r\n" + rest;
    var limit := Limit(s, bufLen, false);
    var n := LineLen(s, limit);
    var step := ChunkStep(cs, s, limit, false);
    var after := DecodeAll(ChunkState(0, size, size), rest, bufLen, false);
    DataStep(cs, left, size, rest, limit);
    DataLineLen(left, rest, bufLen);
    DecodeUnfolds(cs, s, bufLen, false, step);
    if n <= |left| {
      assert s[n..] == left[n..] + "\r\n" + rest;
      SplitIsStable(left, n, bufLen);
      DecodesData(step.next, left[n..], size, rest, bufLen);
      assert left[..n] + (ChunkOutput(left[n..], bufLen, false) + after.payload) ==
             ChunkOutput(left, bufLen, false) + after.payload;
    } else if n == |left| + 1 {
      assert s[n..] == "\n" + rest;
      LineFeedStep(size, rest, Limit("\n" + rest, bufLen, false));
      var skip := Step(ChunkState(0, size, size), 1, 1, "");
      DecodeUnfolds(step.next, "\n" + rest, bufLen, false, skip);
      assert ("\n" + rest)[1..] == rest;
      assert "" + after.payload == after.payload;
    } else {
      assert s[n..] == rest;
      assert left + "" == left;
    }
  }

  /** One call inside a chunk for the string form, which reads whole lines. */
  lemma DataStepToString(cs: ChunkState, left: string, size: int, rest: string)
    requires InChunk(cs, left, size) && '\0' !in left
    ensures
      var s := left + "\r\n" + rest;
      var n := LineLen(s, |s|);
      var step := ChunkStep(cs, s, |s|, true);
      && 0 < n <= |left| + 2 && n != |left| + 1
      && (n <= |left| ==> left[n - 1] == '\n' && step.taken == step.olen == n && step.copied == left[..n]
                          && InChunk(step.next, left[n..], size))
      && (n == |left| + 2 ==> (left != "" ==> left[|left| - 1] != '\n')
                              && step == Step(ChunkState(0, size, size), n, n, if left == "" then "" else left + "\r\n"))
  {
    var s := left + "\r\n" + rest;
    var n := LineLen(s, |s|);
    assert s[|left| + 1] == '\n' && s[|left|] == '\r';
    assert n <= |left| ==> s[n - 1] == left[n - 1] && s[..n] == left[..n];
    assert n == |left| + 2 ==> s[..n] == left + "\r\n" && (left != "" ==> s[|left| - 1] == left[|left| - 1]);
  }

  /** So a chunk is never split there; but a chunk whose data does not end in a line feed
      carries its closing CRLF into the output. */
  lemma {:induction false} DecodesDataToString(cs: ChunkState, left: string, size: int, rest: string, bufLen: nat)
    requires InChunk(cs, left, size) && '\0' !in left
    ensures
      var after := DecodeAll(ChunkState(0, size, size), rest, bufLen, true);
      DecodeAll(cs, left + "\r\n" + rest, bufLen, true) == Decoded(left + Closing(left) + after.payload, after.complete)
    decreases |left|
  {
    hide ChunkStep, DecodeAll, LineLen, Closing;
    var s := left + "\r\n" + rest;
    var n := LineLen(s, |s|);
    var step := ChunkStep(cs, s, |s|, true);
    var after := DecodeAll(ChunkState(0, size, size), rest, bufLen, true);
    DataStepToString(cs, left, size, rest);
    DecodeUnfolds(cs, s, bufLen, true, step);
    if n <= |left| {
      assert s[n..] == left[n..] + "\r\n" + rest;
      DecodesDataToString(step.next, left[n..], size, rest, bufLen);
      ClosingIsStable(left, n);
      assert left[..n] + (left[n..] + Closing(left) + after.payload) == left + Closing(left) + after.payload;
    } else {
      assert s[n..] == rest;
      ClosingIs(left);
    }
  }

  lemma ClosingIsStable(left: string, n: nat)
    requires 0 < n <= |left| && left[n - 1] == '\n'
    ensures Closing(left[n..]) == Closing(left)
  {
  }

  lemma ClosingIs(left: string)
    ensures (left != "" ==> left[|left| - 1] != '\n') ==> (if left == "" then "" else left + "\r\n") == left + Closing(left)
  {
  }

  lemma DecodesChunk(cs: ChunkState, c: Chunk, rest: string, bufLen: nat, toString: bool)
    requires ValidChunk(c, bufLen) && cs.state == 0 && bufLen > 0
    requires toString ==> '\0' !in c.data
    ensures
      var after := DecodeAll(ChunkState(0, |c.data|, |c.data|), rest, bufLen, toString);
      DecodeAll(cs, SizeLine(c.digits, c.ext) + (c.data + "\r\n" + rest), bufLen, toString) ==
      Decoded(ChunkOutput(c.data, bufLen, toString) + after.payload, after.complete)
  {
    hide ChunkStep, DecodeAll, SizeLine, ValidSizeLine, SplitByBuffer, Closing;
    var line := SizeLine(c.digits, c.ext);
    var inData := ChunkState(1, |c.data|, 0);
    var text := c.data + "\r\n" + rest;
    SizeLineFits(c, bufLen);
    SizeStep(cs, c.digits, c.ext, bufLen, text, Limit(line + text, bufLen, toString), toString);
    DecodeUnfolds(cs, line + text, bufLen, toString, Step(inData, |line|, 0, ""));
    assert (line + text)[|line|..] == text;
    if toString {
      DecodesDataToString(inData, c.data, |c.data|, rest, bufLen);
    } else {
      DecodesData(inData, c.data, |c.data|, rest, bufLen);
    }
    assert "" + DecodeAll(inData, text, bufLen, toString).payload == DecodeAll(inData, text, bufLen, toString).payload;
  }

  lemma SizeLineFits(c: Chunk, bufLen: nat)
    requires ValidChunk(c, bufLen)
    ensures 0 < |SizeLine(c.digits, c.ext)| <= bufLen
  {
  }

  lemma DecodesLast(cs: ChunkState, last: Last, bufLen: nat, toString: bool)
    requires ValidLast(last, bufLen) && cs.state == 0
    ensures bufLen > 0
    ensures DecodeAll(cs, SizeLine(last.digits, last.ext) + last.trailers, bufLen, toString) == Decoded("", true)
  {
    hide ChunkStep;
    var s := SizeLine(last.digits, last.ext) + last.trailers;
    SizeStep(cs, last.digits, last.ext, bufLen, last.trailers, Limit(s, bufLen, toString), toString);
  }

  /** The decoder's whole output, chunk by chunk, for either output form. */
  lemma {:induction false} DecodesFraming(cs: ChunkState, chunks: seq<Chunk>, last: Last, bufLen: nat, toString: bool)
    requires ValidChunks(chunks, bufLen) && ValidLast(last, bufLen) && cs.state == 0
    requires toString ==> '\0' !in Body(chunks)
    ensures bufLen > 0
    ensures DecodeAll(cs, Wire(chunks, last), bufLen, toString) == Decoded(Output(chunks, bufLen, toString), true)
    decreases |chunks|
  {
    hide DecodeAll, ValidLast, ValidChunk, ChunkOutput, SizeLine;
    DecodesLast(cs, last, bufLen, toString);
    if chunks != [] {
      var c := chunks[0];
      var rest := Wire(chunks[1..], last);
      if toString { NulFreeParts(chunks); }
      assert Wire(chunks, last) == SizeLine(c.digits, c.ext) + (c.data + "\r\n" + rest);
      DecodesChunk(cs, c, rest, bufLen, toString);
      DecodesFraming(ChunkState(0, |c.data|, |c.data|), chunks[1..], last, bufLen, toString);
    }
  }

  lemma NulFreeParts(chunks: seq<Chunk>)
    requires chunks != [] && '\0' !in Body(chunks)
    ensures '\0' !in chunks[0].data && '\0' !in Body(chunks[1..])
  {
  }

  lemma {:induction false} OutputLength(chunks: seq<Chunk>, bufLen: nat)
    requires bufLen > 0
    ensures |Output(chunks, bufLen, false)| >= |Body(chunks)|
    ensures (forall i | 0 <= i < |chunks| :: !SplitByBuffer(chunks[i].data, bufLen)) ==>
              Output(chunks, bufLen, false) == Body(chunks)
    ensures (exists i | 0 <= i < |chunks| :: SplitByBuffer(chunks[i].data, bufLen)) ==>
              |Output(chunks, bufLen, false)| > |Body(chunks)|
    decreases |chunks|
  {
    if chunks != [] {
      OutputLength(chunks[1..], bufLen);
      if exists i | 0 <= i < |chunks| :: SplitByBuffer(chunks[i].data, bufLen) {
        var i :| 0 <= i < |chunks| && SplitByBuffer(chunks[i].data, bufLen);
        assert i > 0 ==> chunks[1..][i - 1] == chunks[i];
      }
      assert forall i | 0 <= i < |chunks| - 1 :: chunks[1..][i] == chunks[i + 1];
    }
  }

  /** Decoding into a buffer undoes the framing if and only if no chunk's last line fills
      the buffer up to its carriage return. */
  lemma DecodingUndoesFramingIff(cs: ChunkState, chunks: seq<Chunk>, last: Last, bufLen: nat)
    requires ValidChunks(chunks, bufLen) && ValidLast(last, bufLen) && cs.state == 0
    ensures bufLen > 0
    ensures DecodeAll(cs, Wire(chunks, last), bufLen, false).complete
    ensures DecodeAll(cs, Wire(chunks, last), bufLen, false).payload == Body(chunks) <==>
            forall i | 0 <= i < |chunks| :: !SplitByBuffer(chunks[i].data, bufLen)
  {
    DecodesFraming(cs, chunks, last, bufLen, false);
    OutputLength(chunks, bufLen);
  }

  const FILLS_BUFFER: Chunk := Chunk(Hex(2047), "", seq(2047, _ => 'a'))

  const LAST: Last := Last("0", "", "\r\n")

  /** A chunk of 2047 letters comes out with a carriage return behind them. */
  lemma ExtraCarriageReturn()
    ensures ValidChunk(FILLS_BUFFER, 2048) && ValidLast(LAST, 2048)
    ensures DecodeAll(ChunkState(0, 0, 0), Wire([FILLS_BUFFER], LAST), 2048, false) == Decoded(FILLS_BUFFER.data + "\r", true)
  {
    hide DecodeAll, Wire, TailLen;
    PlainChunkIsValid(FILLS_BUFFER.data);
    LastIsValid();
    TailLenWithoutLf(FILLS_BUFFER.data);
    DecodesFraming(ChunkState(0, 0, 0), [FILLS_BUFFER], LAST, 2048, false);
    assert [FILLS_BUFFER][1..] == [];
  }

  lemma LastIsValid()
    ensures ValidLast(LAST, 2048)
  {
    assert "0"[..0] == "" && "0"[0] == '0';
    assert Value("0", 16) == 0;
  }
}
