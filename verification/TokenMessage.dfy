/** Responses as a server writes them, and what each reading step makes of one that has
    arrived completely. */
module TokenMessage {
  import opened Wrappers
  import opened Text
  import opened HttpReader
  import opened ChunkFraming
  import opened TokenResponse

  /** How the body is delimited, with the header line that says so. */
  datatype Framing =
    | ByLength(digits: string, body: string)
    | ByChunks(codings: string, chunks: seq<Chunk>, last: Last)

  /** `lines[at]` is the line that announces the framing. */
  datatype Message = Message(code: string, reason: string, lines: seq<string>, at: nat, framing: Framing)

  function StatusLine(m: Message): (s: string) { "HTTP/1.1 " + m.code + " " + m.reason }

  function Lines(lines: seq<string>): (s: string) {
    if lines == [] then "" else lines[0] + "\r\n" + Lines(lines[1..])
  }

  function HeaderBefore(m: Message, k: nat): (s: string)
    requires k <= |m.lines|
  {
    StatusLine(m) + "\r\n" + Lines(m.lines[..k])
  }

  function Header(m: Message): (s: string) { HeaderBefore(m, |m.lines|) }

  function BodyText(f: Framing): (s: string) {
    match f
    case ByLength(_, body) => body
    case ByChunks(_, chunks, last) => Wire(chunks, last)
  }

  function Full(m: Message): (s: string) {
    StatusLine(m) + "\r\n" + (Lines(m.lines) + ("\r\n" + BodyText(m.framing)))
  }

  /** What the reader hands on: the body; under chunked framing, with the carriage returns
      that a full buffer lets through. */
  function Payload(f: Framing): (s: string) {
    match f
    case ByLength(_, body) => body
    case ByChunks(_, chunks, _) => Output(chunks, BUF_LEN, false)
  }

  function Content(f: Framing): (s: string) {
    match f
    case ByLength(_, body) => body
    case ByChunks(_, chunks, _) => Body(chunks)
  }

  predicate PlainLine(s: string) {
    '\r' !in s && '\n' !in s && '\0' !in s && 0 < |s| <= BUF_LEN - 2
  }

  predicate Numeral(s: string) { s != "" && forall c | c in s :: IsDecimal(c) }

  ghost predicate ValidFraming(m: Message) {
    m.at < |m.lines| &&
    match m.framing
    case ByLength(digits, body) =>
      && m.lines[m.at] == "Content-Length: " + digits
      && Numeral(digits) && Value(digits, 10) == |body| && 0 < |body| && '\0' !in body
      && !Contains(HeaderBefore(m, m.at), "Content-Length: ")
      && !Contains(Header(m), "Transfer-Encoding: ")
    case ByChunks(codings, chunks, last) =>
      && m.lines[m.at] == "Transfer-Encoding: " + ("chunked" + codings)
      && ValidChunks(chunks, BUF_LEN) && ValidLast(last, BUF_LEN)
      && Body(chunks) != "" && '\0' !in Body(chunks)
      && !Contains(HeaderBefore(m, m.at), "Transfer-Encoding: ")
  }

  ghost predicate ValidMessage(m: Message) {
    && PlainLine(StatusLine(m))
    && Numeral(m.code) && Value(m.code, 10) > 0 && Value(m.code, 10) != NO_CONTENT
    && (forall i | 0 <= i < |m.lines| :: PlainLine(m.lines[i]))
    && ValidFraming(m)
  }

  // ------------------------------------------------------------ header fields

  lemma SliceOut(a: string, b: string, c: string)
    ensures (a + b + c)[|a|..|a| + |b|] == b
  {
  }

  /** A field is read as what follows its name, up to the line end. */
  lemma TokenFound(pre: string, token1: string, value: string, token2: string, post: string)
    requires token1 != "" && token2 != "" && value != ""
    requires !Contains(pre, token1) && (pre != "" ==> pre[|pre| - 1] !in token1)
    requires token2[0] !in value
    ensures TokenSubString(pre + token1 + (value + token2 + post), token1, token2) == Some(value)
  {
    hide Match;
    var s := pre + token1 + (value + token2 + post);
    FindsFirst(pre, token1, value + token2 + post);
    var start := |pre| + |token1|;
    var end := start + |value|;
    SliceOut(pre + token1, value, token2 + post);
    SliceOut(pre + token1 + value, token2, post);
    assert s == pre + token1 + value + (token2 + post) == pre + token1 + value + token2 + post;
    forall i | start + 1 <= i < end
      ensures s[i] != token2[0]
    {
      assert s[i] == value[i - start] && value[i - start] in value;
    }
    MatchSlides(s, token2, start + 1, end);
    assert Find(s, token2, start + 1) == end;
  }

  lemma LinesSplit(lines: seq<string>, k: nat)
    requires k < |lines|
    ensures Lines(lines) == Lines(lines[..k]) + (lines[k] + "\r\n" + Lines(lines[k + 1..]))
    ensures Lines(lines[..k + 1]) == Lines(lines[..k]) + (lines[k] + "\r\n")
    decreases k
  {
    if k > 0 {
      LinesSplit(lines[1..], k - 1);
      assert lines[1..][..k - 1] == lines[..k][1..];
      assert lines[1..][..k] == lines[..k + 1][1..];
      assert lines[1..][k..] == lines[k + 1..];
    } else {
      assert lines[..1][1..] == [];
      assert Lines(lines[..1]) == lines[0] + "\r\n" + Lines(lines[..1][1..]);
    }
  }

  lemma HeaderEndsInLf(m: Message, k: nat)
    requires k <= |m.lines|
    ensures HeaderBefore(m, k) != "" && HeaderBefore(m, k)[|HeaderBefore(m, k)| - 1] == '\n'
  {
    if k > 0 {
      LinesSplit(m.lines, k - 1);
    } else {
      assert Lines(m.lines[..0]) == "";
    }
  }

  lemma FieldFound(m: Message, name: string, value: string)
    requires m.at < |m.lines| && m.lines[m.at] == name + value && value != "" && name != ""
    requires '\n' !in name && '\r' !in value && !Contains(HeaderBefore(m, m.at), name)
    ensures TokenSubString(Header(m), name, "\r\n") == Some(value)
  {
    hide TokenSubString, Contains;
    var pre := HeaderBefore(m, m.at);
    var post := Lines(m.lines[m.at + 1..]);
    LinesSplit(m.lines, m.at);
    assert m.lines[..|m.lines|] == m.lines;
    HeaderEndsInLf(m, m.at);
    assert Header(m) == pre + name + (value + "\r\n" + post);
    TokenFound(pre, name, value, "\r\n", post);
  }

  /** The announced framing is what the header parser finds. */
  lemma FramingIsFound(m: Message)
    requires ValidMessage(m)
    ensures m.framing.ByLength? ==> !IsChunked(Header(m)) && ContentLength(Header(m), 0) == |m.framing.body|
    ensures m.framing.ByChunks? ==> IsChunked(Header(m))
  {
    hide Find;
    var line := m.lines[m.at];
    assert forall c | c in line :: c != '\r';
    match m.framing
    case ByLength(digits, body) =>
      assert line[|"Content-Length: "|..] == digits;
      NoCrInTail(line, "Content-Length: ", digits);
      FieldFound(m, "Content-Length: ", digits);
      AtoiOfNumeral(digits);
      FindsNothing(Header(m), "Transfer-Encoding: ");
    case ByChunks(codings, chunks, last) =>
      var value := "chunked" + codings;
      NoCrInTail(line, "Transfer-Encoding: ", value);
      FieldFound(m, "Transfer-Encoding: ", value);
      assert value[..7] == "chunked";
  }

  lemma NoCrInTail(line: string, name: string, value: string)
    requires line == name + value && '\r' !in line
    ensures '\r' !in value
  {
    assert forall c | c in value :: c in line;
  }

  lemma StatusIsFound(m: Message)
    requires ValidMessage(m)
    ensures StatusCode(StatusLine(m) + "\r\n") == Value(m.code, 10)
  {
    hide TokenSubString, Contains, Atoi, Value;
    var post := m.reason + "\r\n";
    var name := "HTTP/1.1 ";
    assert StatusLine(m) + "\r\n" == name + (m.code + " " + post) == "" + name + (m.code + " " + post);
    NothingInEmpty("HTTP/1.1 ");
    TokenFound("", "HTTP/1.1 ", m.code, " ", post);
    AtoiOfNumeral(m.code);
  }

  lemma AtoiOfNumeral(s: string)
    requires Numeral(s)
    ensures Atoi(s) == Value(s, 10)
  {
    AtoiIsValue("", s);
    assert "" + s == s;
  }

  lemma NothingInEmpty(needle: string)
    requires needle != ""
    ensures !Contains("", needle)
  {
  }

  // ------------------------------------------------------------ reading steps

  datatype Phase = AtStatus | AtHeader(k: nat) | AtBody

  /** The reader is at `phase` of the message, with everything still to come on the client. */
  ghost predicate OnTrack(m: Message, phase: Phase, v: Reader) {
    && v.ready == |v.inbound|
    && match phase
       case AtStatus => v == Fresh(Full(m), |Full(m)|)
       case AtHeader(k) =>
         && k <= |m.lines|
         && v.inbound == Lines(m.lines[k..]) + ("\r\n" + BodyText(m.framing))
         && v.header == HeaderBefore(m, k)
         && v.chunkIdx >= 1 && v.isHeader && !v.headerEnded && v.httpCode == Value(m.code, 10)
         && v.contentLen == 0 && !v.chunked && !v.noContent
         && v.payloadRead == 0 && v.payload == "" && v.chunkState.state == 0
       case AtBody =>
         && v.chunkIdx >= 1 && !v.isHeader && v.httpCode == Value(m.code, 10) && !v.noContent
         && BodyOnTrack(m.framing, v)
  }

  ghost predicate BodyOnTrack(f: Framing, v: Reader) {
    match f
    case ByLength(_, body) =>
      && !v.chunked && v.contentLen == |body| && v.payloadRead == |v.payload|
      && v.inbound != "" && v.payload + v.inbound == body
    case ByChunks(_, chunks, _) =>
      var rest := DecodeAll(v.chunkState, v.inbound, BUF_LEN, false);
      v.chunked && rest.complete && v.payload + rest.payload == Payload(f)
  }

  lemma LineIsRead(line: string, rest: string)
    requires '\n' !in line && |line| + 2 <= BUF_LEN
    ensures LineLen(line + "\r\n" + rest, Min(|line + "\r\n" + rest|, BUF_LEN)) == |line| + 2
  {
    var s := line + "\r\n" + rest;
    assert s[|line| + 1] == '\n' && s[|line|] == '\r';
    forall i | 0 <= i < |line| + 1
      ensures s[i] != '\n'
    {
      assert i < |line| ==> s[i] == line[i] && line[i] in line;
    }
    LineLenIs(s, Min(|s|, BUF_LEN), |line| + 2);
  }

  lemma LineAsCString(line: string)
    requires '\0' !in line
    ensures CString(line + "\r\n") == line + "\r\n"
  {
    CStringOfNulFree(line + "\r\n", "");
    assert (line + "\r\n") + "" == line + "\r\n";
  }

  lemma StatusTurn(m: Message, v: Reader)
    requires ValidMessage(m) && OnTrack(m, AtStatus, v)
    ensures OnTrack(m, AtHeader(0), AfterStatusLine(v)) && |AfterStatusLine(v).inbound| < |v.inbound|
  {
    hide StatusCode, LineLen, CString, Contains, BodyText;
    var line := StatusLine(m);
    var rest := Lines(m.lines) + ("\r\n" + BodyText(m.framing));
    LineIsRead(line, rest);
    assert v.inbound[..|line| + 2] == line + "\r\n" && v.inbound[|line| + 2..] == rest;
    LineAsCString(line);
    StatusIsFound(m);
    assert m.lines[0..] == m.lines && m.lines[..0] == [];
    assert HeaderBefore(m, 0) == line + "\r\n" + "" == line + "\r\n";
  }

  lemma LineIsPlain(m: Message, k: nat)
    requires ValidMessage(m) && k < |m.lines|
    ensures PlainLine(m.lines[k])
  {
    hide ValidFraming;
  }

  lemma PlainIsNoEnd(line: string)
    requires PlainLine(line)
    ensures !EndsHeader(line + "\r\n") && CString(line + "\r\n") == line + "\r\n"
  {
    hide CString;
    LineAsCString(line);
    assert (line + "\r\n")[0] == line[0];
  }

  lemma HeaderGrows(m: Message, k: nat)
    requires k < |m.lines|
    ensures HeaderBefore(m, k + 1) == HeaderBefore(m, k) + (m.lines[k] + "\r\n")
  {
    hide Lines;
    LinesSplit(m.lines, k);
    assert m.lines[..k + 1] == m.lines[..k] + [m.lines[k]];
  }

  lemma HeaderTurn(m: Message, k: nat, v: Reader)
    requires ValidMessage(m) && OnTrack(m, AtHeader(k), v) && k < |m.lines|
    ensures OnTrack(m, AtHeader(k + 1), AfterHeaderLine(v)) && |AfterHeaderLine(v).inbound| < |v.inbound|
  {
    hide LineLen, CString, Contains, BodyText, ValidMessage, Full, Fresh, HeaderBefore, BodyOnTrack, EndsHeader, ContentLength, IsChunked;
    var line := m.lines[k];
    var rest := Lines(m.lines[k + 1..]) + ("\r\n" + BodyText(m.framing));
    assert m.lines[k..][1..] == m.lines[k + 1..];
    assert v.inbound == line + "\r\n" + rest;
    LineIsPlain(m, k);
    LineIsRead(line, rest);
    assert v.inbound[..|line| + 2] == line + "\r\n" && v.inbound[|line| + 2..] == rest;
    PlainIsNoEnd(line);
    HeaderGrows(m, k);
  }

  lemma BlankLineTurn(m: Message, v: Reader)
    requires ValidMessage(m) && OnTrack(m, AtHeader(|m.lines|), v)
    ensures var w := AfterHeaderLine(v);
            OnTrack(m, AtBody, w) && w.headerEnded && (w.chunked || w.contentLen != 0) && |w.inbound| < |v.inbound|
  {
    hide LineLen, Contains, ContentLength, IsChunked, DecodeAll, BodyText;
    var rest := BodyText(m.framing);
    assert m.lines[|m.lines|..] == [];
    assert v.inbound == "" + "\r\n" + rest;
    LineIsRead("", rest);
    assert v.inbound[..2] == "\r\n" && v.inbound[2..] == rest;
    FramingIsFound(m);
    BodyBegins(m, v.chunkState);
  }

  lemma BodyBegins(m: Message, cs: ChunkState)
    requires ValidMessage(m) && cs.state == 0
    ensures m.framing.ByLength? ==> "" + BodyText(m.framing) == m.framing.body && |m.framing.body| > 0
    ensures m.framing.ByChunks? ==>
              var r := DecodeAll(cs, BodyText(m.framing), BUF_LEN, false);
              r.complete && "" + r.payload == Payload(m.framing)
  {
    if m.framing.ByChunks? {
      DecodesFraming(cs, m.framing.chunks, m.framing.last, BUF_LEN, false);
    }
  }

  /** A body turn either hands out the last byte and is recognised as the end, or leaves a
      shorter rest. */
  lemma LengthTurn(m: Message, v: Reader)
    requires ValidMessage(m) && OnTrack(m, AtBody, v) && m.framing.ByLength?
    ensures var w := AfterPayload(v);
            && |w.inbound| < |v.inbound| && !w.chunked && w.bufferAvailable > 0
            && (if w.payloadRead >= w.contentLen then w.payload == m.framing.body else OnTrack(m, AtBody, w))
  {
    var n := LineLen(v.inbound, Min(v.ready, BUF_LEN));
    var line := v.inbound[..n];
    assert forall c | c in line :: c in v.payload + v.inbound;
    CStringOfNulFree(line, "");
    assert line + "" == line;
    assert v.payload + line + v.inbound[n..] == v.payload + v.inbound;
  }

  lemma PayloadNulFree(m: Message)
    requires ValidMessage(m) && m.framing.ByChunks?
    ensures '\0' !in Payload(m.framing)
  {
    hide Contains, Output, ValidChunks, ValidLast, Body, PlainLine;
    OutputNulFree(m.framing.chunks);
  }

  lemma PartAsCString(a: string, part: string, b: string)
    requires '\0' !in a + (part + b)
    ensures CString(part) == part
  {
    assert forall c | c in part :: c in a + (part + b);
    CStringOfNulFree(part, "");
    assert part + "" == part;
  }

  lemma ChunkTurn(m: Message, v: Reader)
    requires ValidMessage(m) && OnTrack(m, AtBody, v) && m.framing.ByChunks?
    ensures var w := AfterPayload(v);
            && w.chunked
            && (if w.bufferAvailable < 0 then w.payload == Payload(m.framing)
                else |w.inbound| < |v.inbound| && OnTrack(m, AtBody, w))
  {
    hide ChunkStep, CString, DecodeAll, LineLen, ValidMessage, Payload, Full, Fresh, HeaderBefore, Lines;
    var limit := Min(v.ready, BUF_LEN);
    assert limit == Limit(v.inbound, BUF_LEN, false);
    var step := ChunkStep(v.chunkState, v.inbound, limit, false);
    DecodeCases(v.chunkState, v.inbound, BUF_LEN, false, step);
    if step.olen == -1 {
      assert v.payload + "" == v.payload;
    } else {
      DecodeUnfolds(v.chunkState, v.inbound, BUF_LEN, false, step);
      var after := DecodeAll(step.next, v.inbound[step.taken..], BUF_LEN, false);
      PayloadNulFree(m);
      PartAsCString(v.payload, step.copied, after.payload);
      assert v.payload + (step.copied + after.payload) == v.payload + step.copied + after.payload;
    }
  }

  lemma {:induction false} OutputNulFree(chunks: seq<Chunk>)
    requires '\0' !in Body(chunks)
    ensures '\0' !in Output(chunks, BUF_LEN, false)
    decreases |chunks|
  {
    if chunks != [] {
      NulFreeParts(chunks);
      OutputNulFree(chunks[1..]);
    }
  }

  /** Exactly when the payload handed on is the body the server meant. */
  lemma PayloadIsContentIff(f: Framing)
    ensures Payload(f) == Content(f) <==>
            (f.ByChunks? ==> forall i | 0 <= i < |f.chunks| :: !SplitByBuffer(f.chunks[i].data, BUF_LEN))
  {
    if f.ByChunks? {
      OutputLength(f.chunks, BUF_LEN);
    }
  }

  const PLAIN: Message := Message("200", "OK", ["Content-Length: 2"], 0, ByLength("2", "{}"))

  lemma PlainTexts()
    ensures StatusLine(PLAIN) == "HTTP/1.1 200 OK"
    ensures HeaderBefore(PLAIN, 0) == "HTTP/1.1 200 OK" + "\r\n"
    ensures Header(PLAIN) == "HTTP/1.1 200 OK" + "\r\n" + ("Content-Length: 2" + "\r\n")
  {
    var lines := PLAIN.lines;
    assert StatusLine(PLAIN) == "HTTP/1.1 200 OK";
    assert lines[..0] == [] && lines[..1] == lines && lines[1..] == [];
    assert Lines(lines) == lines[0] + "\r\n" + Lines(lines[1..]);
  }

  lemma PlainLines()
    ensures PlainLine("HTTP/1.1 200 OK") && PlainLine("Content-Length: 2")
  {
  }

  lemma PlainLetters()
    ensures 'C' !in "HTTP/1.1 200 OK" + "\r\n"
    ensures 'f' !in "HTTP/1.1 200 OK" + "\r\n" + ("Content-Length: 2" + "\r\n")
    ensures "Content-Length: "[0] == 'C' && "Transfer-Encoding: "[5] == 'f'
  {
    assert "HTTP/1.1 200 OK" + "\r\n" == ['H', 'T', 'T', 'P', '/', '1', '.', '1', ' ', '2', '0', '0', ' ', 'O', 'K', '\r', '\n'];
  }

  lemma PlainHeaderLacks()
    ensures !Contains(HeaderBefore(PLAIN, 0), "Content-Length: ")
    ensures !Contains(Header(PLAIN), "Transfer-Encoding: ")
  {
    hide *;
    PlainTexts();
    PlainLetters();
    NotContained(HeaderBefore(PLAIN, 0), "Content-Length: ", 0);
    NotContained(Header(PLAIN), "Transfer-Encoding: ", 5);
  }

  /** A plain response is a valid message. */
  lemma PlainMessageIsValid()
    ensures ValidMessage(PLAIN)
  {
    hide Contains, HeaderBefore, Header, PlainLine;
    PlainTexts();
    PlainLines();
    PlainHeaderLacks();
    SmallNumerals();
    assert "Content-Length: " + "2" == "Content-Length: 2";
  }

  lemma SmallNumerals()
    ensures Value("2", 10) == 2 && Value("200", 10) == 200
  {
    assert "2"[..0] == "" && "200"[..2] == "20" && "20"[..1] == "2";
    assert Value("2", 10) == 2 && Value("20", 10) == 20;
  }
}
