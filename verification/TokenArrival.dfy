/** A response that arrives bit by bit, in any pieces: which pieces of its head the reading loop can
    stand, told from the lengths of its lines, and the runs in which it meets no others. */
module TokenArrival {
  import opened Wrappers
  import opened Text
  import opened HttpReader
  import opened ChunkFraming
  import opened TokenResponse
  import opened TokenMessage
  import opened TokenHandler

  /** What there is to read: the bytes that have arrived, and how many follow in each round. */
  datatype Supply = Supply(ready: nat, arrivals: seq<nat>)

  function Total(arrivals: seq<nat>): (n: nat) {
    if arrivals == [] then 0 else arrivals[0] + Total(arrivals[1..])
  }

  const PROTOCOL: string := "HTTP/1.1 "

  function HeadLines(m: Message): (lines: seq<string>) { [StatusLine(m)] + m.lines }

  /** The line that is read next; behind the last one, the blank line. */
  function NextText(lines: seq<string>): (s: string) { if lines == [] then "" else lines[0] }

  /** What is left of the supply when the head has been read, `gone` bytes of its first line
      having been read before. None if it never is, or if a read stops where the loop cannot stand
      it: in front of a line's CRLF, or between the CR and LF of the blank line. */
  function AfterHead(lines: seq<string>, gone: nat, s: Supply): (r: Option<Supply>)
    decreases |s.arrivals|, |lines|
  {
    var len := |NextText(lines)|;
    var now := gone + s.ready + Next(s.arrivals);
    var later := Later(s.arrivals);
    if now >= len + 2 then
      var rest := Supply(now - (len + 2), later);
      if lines == [] then Some(rest) else AfterHead(lines[1..], 0, rest)
    else if s.arrivals == [] || now == (if lines == [] then 1 else len) then None
    else AfterHead(lines, now, Supply(0, later))
  }

  /** The same for the whole response, from the wait for its first byte on. The first read must
      reach behind the status code. */
  function AfterWholeHead(m: Message, connected: bool, s: Supply): (r: Option<Supply>)
    decreases |s.arrivals|
  {
    if connected && s.ready == 0 && s.arrivals != [] then AfterWholeHead(m, connected, Supply(s.arrivals[0], s.arrivals[1..]))
    else if s.ready + Next(s.arrivals) < |PROTOCOL| + |m.code| then None
    else AfterHead(HeadLines(m), 0, s)
  }

  // ------------------------------------------------------------- one read

  lemma PartOf(line: string, rest: string, gone: nat, n: nat)
    requires gone <= |line| + 1 && n <= |line| + 2 - gone
    ensures var s := (line + "\r\n" + rest)[gone..];
            && |s| == |line| + 2 + |rest| - gone
            && s[..n] == (line + "\r\n")[gone..gone + n] && s[n..] == (line + "\r\n" + rest)[gone + n..]
  {
  }

  /** A read takes what has arrived of its line. */
  lemma CutLineLen(line: string, rest: string, gone: nat, ready: nat)
    requires '\n' !in line && |line| + 2 <= BUF_LEN && gone <= |line| + 1
    requires ready <= |(line + "\r\n" + rest)[gone..]|
    ensures LineLen((line + "\r\n" + rest)[gone..], Min(ready, BUF_LEN)) == Min(ready, |line| + 2 - gone)
  {
    var whole := line + "\r\n" + rest;
    var s := whole[gone..];
    var n := Min(ready, |line| + 2 - gone);
    forall i: nat | i + 1 < n
      ensures s[i] != '\n'
    {
      assert s[i] == whole[gone + i];
      assert gone + i < |line| ==> whole[gone + i] == line[gone + i] && line[gone + i] in line;
      assert whole[|line|] == '\r';
    }
    assert whole[|line| + 1] == '\n';
    LineLenIs(s, Min(ready, BUF_LEN), n);
  }

  /** A piece of a line passes for the end of the header exactly if it begins with its CR. */
  lemma PieceEndsIff(line: string, gone: nat, n: nat)
    requires '\r' !in line && gone + n <= |line| + 2
    ensures EndsHeader((line + "\r\n")[gone..gone + n]) <==> gone == |line| && n > 0
  {
    var piece := (line + "\r\n")[gone..gone + n];
    EndsHeaderIs(piece);
    if n > 0 && gone < |line| {
      assert piece[0] == line[gone] && line[gone] in line;
    }
  }

  lemma PieceAsCString(line: string, gone: nat, n: nat)
    requires '\0' !in line && gone + n <= |line| + 2
    ensures var piece := (line + "\r\n")[gone..gone + n]; CString(piece) == piece
  {
    var piece := (line + "\r\n")[gone..gone + n];
    assert forall c | c in piece :: c in line + "\r\n";
    CStringOfNulFree(piece, "");
    assert piece + "" == piece;
  }

  lemma TokenAtEnd(token1: string, value: string, token2: string)
    requires token1 != "" && token2 != "" && token2[0] !in value
    ensures TokenSubString(token1 + value, token1, token2) == Some(value)
  {
    hide Match;
    var s := token1 + value;
    NothingInEmpty(token1);
    FindsFirst("", token1, value);
    assert "" + token1 + value == s;
    assert forall i | |token1| <= i < |s| :: s[i] == value[i - |token1|];
    NotContainedBehind(s, token2, |token1| + 1);
    assert s[|token1|..|s|] == value;
  }

  lemma NotContainedBehind(s: string, needle: string, from: nat)
    requires needle != "" && forall i | from <= i < |s| :: s[i] != needle[0]
    ensures Find(s, needle, from) == -1
  {
    if from <= |s| { MatchesNowhere(s, needle, from); }
  }

  lemma {:induction false} MatchesNowhere(s: string, needle: string, at: nat)
    requires at <= |s| && needle != "" && forall i | at <= i < |s| :: s[i] != needle[0]
    ensures Match(s, needle, at, 0) == -1
    decreases |s| - at
  {
    if at < |s| { MatchesNowhere(s, needle, at + 1); }
  }

  lemma {:induction false} PrefixIsLess(s: string, k: nat)
    requires Numeral(s) && Value(s, 10) > 0 && k < |s|
    ensures Value(s[..k], 10) < Value(s, 10)
  {
    var t := s[..|s| - 1];
    assert Value(s, 10) == Value(t, 10) * 10 + DigitValue(s[|s| - 1]);
    if k < |t| {
      assert t[..k] == s[..k];
      if Value(t, 10) > 0 {
        PrefixIsLess(t, k);
      } else {
        PrefixIsNone(t, k);
      }
    } else {
      assert s[..k] == t;
    }
  }

  lemma {:induction false} PrefixIsNone(s: string, k: nat)
    requires k <= |s| && Value(s, 10) == 0
    ensures Value(s[..k], 10) == 0
  {
    if k < |s| {
      var t := s[..|s| - 1];
      assert t[..k] == s[..k];
      PrefixIsNone(t, k);
    } else {
      assert s[..k] == s;
    }
  }

  /** The status code is read rightly exactly if the first read reaches behind it. */
  lemma StatusOfCutIff(m: Message, n: nat)
    requires ValidMessage(m) && n <= |StatusLine(m)| + 2
    ensures StatusCode((StatusLine(m) + "\r\n")[..n]) == Value(m.code, 10) <==> |PROTOCOL| + |m.code| <= n
  {
    hide TokenSubString, Contains, Atoi, Value;
    var whole := StatusLine(m) + "\r\n";
    var cut := whole[..n];
    assert whole == PROTOCOL + (m.code + (" " + m.reason + "\r\n"));
    if n < |PROTOCOL| {
      NoTokenInShort(cut);
    } else if n < |PROTOCOL| + |m.code| {
      var k := n - |PROTOCOL|;
      assert cut == PROTOCOL + m.code[..k];
      DigitsOnly(m.code, k);
      TokenAtEnd(PROTOCOL, m.code[..k], " ");
      PrefixAsNumber(m.code, k);
    } else if n == |PROTOCOL| + |m.code| {
      assert cut == PROTOCOL + m.code;
      DigitsOnly(m.code, |m.code|);
      assert m.code[..|m.code|] == m.code;
      TokenAtEnd(PROTOCOL, m.code, " ");
      AtoiOfNumeral(m.code);
    } else {
      var post := (m.reason + "\r\n")[..n - |PROTOCOL| - |m.code| - 1];
      assert cut == PROTOCOL + (m.code + " " + post) == "" + PROTOCOL + (m.code + " " + post);
      NothingInEmpty(PROTOCOL);
      DigitsOnly(m.code, |m.code|);
      assert m.code[..|m.code|] == m.code;
      TokenFound("", PROTOCOL, m.code, " ", post);
      AtoiOfNumeral(m.code);
    }
  }

  lemma DigitsOnly(s: string, k: nat)
    requires Numeral(s) && k <= |s|
    ensures ' ' !in s[..k]
  {
    assert forall c | c in s[..k] :: c in s;
  }

  lemma NoTokenInShort(s: string)
    requires |s| < |PROTOCOL|
    ensures StatusCode(s) == 0
  {
    assert !Contains(s, PROTOCOL);
    FindsNothing(s, PROTOCOL);
  }

  lemma PrefixAsNumber(s: string, k: nat)
    requires Numeral(s) && Value(s, 10) > 0 && k < |s|
    ensures Atoi(s[..k]) < Value(s, 10)
  {
    hide Atoi, Value;
    PrefixIsLess(s, k);
    if k > 0 {
      assert forall c | c in s[..k] :: c in s;
      AtoiOfNumeral(s[..k]);
    } else {
      AtoiOfNothing(s[..k]);
    }
  }

  lemma AtoiOfNothing(s: string)
    requires s == ""
    ensures Atoi(s) == 0
  {
  }

  // ------------------------------------------------------------- the head

  /** What follows the line that is read next. */
  function Behind(m: Message, lines: seq<string>): (s: string) {
    if lines == [] then BodyText(m.framing) else Lines(lines[1..]) + ("\r\n" + BodyText(m.framing))
  }

  function HeaderRest(lines: seq<string>, gone: nat): (s: string)
    requires gone <= |NextText(lines)| + 2
  {
    if lines == [] then "" else (lines[0] + "\r\n")[gone..] + Lines(lines[1..])
  }

  /** The reader is `gone` bytes into the first of `lines`, or in front of the blank line. */
  ghost predicate InHead(m: Message, lines: seq<string>, gone: nat, v: Reader) {
    && v.Ok() && gone <= |NextText(lines)| + 1 && (lines == [] ==> gone == 0)
    && (forall i | 0 <= i < |lines| :: PlainLine(lines[i]))
    && v.inbound == (NextText(lines) + "\r\n" + Behind(m, lines))[gone..]
    && v.header + HeaderRest(lines, gone) == Header(m)
    && v.chunkIdx >= 1 && v.isHeader && !v.headerEnded && v.httpCode == Value(m.code, 10)
    && v.contentLen == 0 && !v.chunked && !v.noContent
    && v.payloadRead == 0 && v.payload == "" && v.chunkState.state == 0
  }

  function Reads(lines: seq<string>, gone: nat, v: Reader): (n: nat)
    requires gone <= |NextText(lines)| + 1
  {
    Min(v.ready, |NextText(lines)| + 2 - gone)
  }

  lemma HeadRead(m: Message, lines: seq<string>, gone: nat, v: Reader)
    requires InHead(m, lines, gone, v)
    ensures var text, n := NextText(lines), Reads(lines, gone, v);
            && v.Line() == n && |text| + 2 - gone <= |v.inbound|
            && v.inbound[..n] == (text + "\r\n")[gone..gone + n] == CString(v.inbound[..n])
            && v.inbound[n..] == (text + "\r\n" + Behind(m, lines))[gone + n..]
            && (EndsHeader(v.inbound[..n]) <==> gone == |text| && n > 0)
  {
    hide CString, LineLen, EndsHeader, Behind, HeaderRest;
    var text, n := NextText(lines), Reads(lines, gone, v);
    NextIsPlain(lines);
    PartOf(text, Behind(m, lines), gone, n);
    CutLineLen(text, Behind(m, lines), gone, v.ready);
    PieceEndsIff(text, gone, n);
    PieceAsCString(text, gone, n);
  }

  lemma NextIsPlain(lines: seq<string>)
    requires forall i | 0 <= i < |lines| :: PlainLine(lines[i])
    ensures var text := NextText(lines); '\r' !in text && '\n' !in text && '\0' !in text && |text| + 2 <= BUF_LEN
    ensures lines != [] ==> NextText(lines) != ""
  {
  }

  lemma HeadGrows(m: Message, lines: seq<string>, gone: nat, v: Reader)
    requires InHead(m, lines, gone, v) && (gone == |NextText(lines)| ==> v.ready == 0)
    ensures var n := Reads(lines, gone, v);
            AfterHeaderLine(v) == v.(
              inbound := (NextText(lines) + "\r\n" + Behind(m, lines))[gone + n..], ready := v.ready - n,
              header := v.header + (NextText(lines) + "\r\n")[gone..gone + n])
  {
    hide CString, LineLen, EndsHeader, Behind, HeaderRest;
    HeadRead(m, lines, gone, v);
  }

  lemma PartMoves(header: string, line: string, gone: nat, n: nat, rest: string)
    requires gone + n <= |line|
    ensures header + (line[gone..] + rest) == (header + line[gone..gone + n]) + (line[gone + n..] + rest)
    ensures gone + n == |line| ==> line[gone + n..] + rest == rest
  {
    assert line[gone..] == line[gone..gone + n] + line[gone + n..];
  }

  lemma HeaderMoves(lines: seq<string>, gone: nat, n: nat, header: string, whole: string)
    requires gone + n <= |NextText(lines)| + 2 && header + HeaderRest(lines, gone) == whole && (lines == [] ==> n == 0)
    ensures var h := header + (NextText(lines) + "\r\n")[gone..gone + n];
            h + HeaderRest(lines, gone + n) == whole &&
            (lines != [] && gone + n == |NextText(lines)| + 2 ==> h + Lines(lines[1..]) == whole)
  {
    hide Lines;
    if lines != [] {
      PartMoves(header, lines[0] + "\r\n", gone, n, Lines(lines[1..]));
    } else {
      assert header + "" == header;
    }
  }

  /** A read that does not end the header moves on by what it takes. */
  lemma HeadGoesOn(m: Message, lines: seq<string>, gone: nat, v: Reader)
    requires InHead(m, lines, gone, v) && (gone == |NextText(lines)| ==> v.ready == 0)
    ensures var n := Reads(lines, gone, v); var w := AfterHeaderLine(v);
            && w.ready == v.ready - n && |w.inbound| == |v.inbound| - n
            && (gone + n < |NextText(lines)| + 2 ==> InHead(m, lines, gone + n, w))
            && (gone + n == |NextText(lines)| + 2 ==> lines != [] && InHead(m, lines[1..], 0, w))
  {
    hide AfterHeaderLine, PlainLine, Header, Lines, BodyText, Behind, HeaderRest;
    HeadGrows(m, lines, gone, v);
    var n := Reads(lines, gone, v);
    HeaderMoves(lines, gone, n, v.header, Header(m));
    if gone + n == |NextText(lines)| + 2 {
      NextLineComes(m, lines);
    }
  }

  lemma NextLineComes(m: Message, lines: seq<string>)
    requires lines != []
    ensures var rest := lines[1..];
            && (lines[0] + "\r\n" + Behind(m, lines))[|lines[0]| + 2..] == Behind(m, lines)
            && Behind(m, lines) == (NextText(rest) + "\r\n" + Behind(m, rest))[0..]
            && HeaderRest(rest, 0) == Lines(rest)
  {
  }

  /** A read that begins with a CR ends the header there. */
  lemma HeadEnds(m: Message, lines: seq<string>, gone: nat, v: Reader)
    requires InHead(m, lines, gone, v) && gone == |NextText(lines)| && v.ready > 0 && Value(m.code, 10) != NO_CONTENT
    ensures var w := AfterHeaderLine(v);
            && w == v.Take(Min(v.ready, 2)).(isHeader := false, headerEnded := true,
                                             contentLen := ContentLength(v.header, 0), chunked := IsChunked(v.header))
            && w.inbound == (if v.ready == 1 then "\n" else "") + Behind(m, lines)
  {
    hide CString, LineLen, EndsHeader, ContentLength, IsChunked, Behind, HeaderRest;
    HeadRead(m, lines, gone, v);
    var text := NextText(lines);
    assert (text + "\r\n" + Behind(m, lines))[gone + 2..] == Behind(m, lines);
    assert (text + "\r\n" + Behind(m, lines))[gone + 1..] == "\n" + Behind(m, lines);
  }

  /** The head has been read, and the body follows. */
  ghost predicate BeforeBody(m: Message, v: Reader) {
    && v.Ok() && v.inbound == BodyText(m.framing)
    && v.chunkIdx >= 1 && !v.isHeader && v.headerEnded && v.httpCode == Value(m.code, 10) && !v.noContent
    && v.payloadRead == 0 && v.payload == "" && v.chunkState.state == 0
    && v.chunked == m.framing.ByChunks? && (m.framing.ByLength? ==> v.contentLen == |m.framing.body|)
  }

  lemma BodyFollows(m: Message, v: Reader)
    requires ValidMessage(m) && InHead(m, [], 0, v) && v.ready >= 2
    ensures BeforeBody(m, AfterHeaderLine(v)) && (AfterHeaderLine(v).chunked || AfterHeaderLine(v).contentLen != 0)
    ensures AfterHeaderLine(v).ready == v.ready - 2
  {
    hide AfterHeaderLine, ContentLength, IsChunked, Contains, Header;
    HeadEnds(m, [], 0, v);
    assert v.header + "" == v.header;
    assert "" + BodyText(m.framing) == BodyText(m.framing);
    FramingIsFound(m);
  }

  // ------------------------------------------------------------ whole runs

  /** The reader is in the head, in front of no CR but the blank line's. */
  ghost predicate InOrder(m: Message, lines: seq<string>, gone: nat, v: Reader) {
    InHead(m, lines, gone, v) && (lines != [] ==> gone != |lines[0]|)
  }

  predicate Supplied(v: Reader, s: Supply) { v.ready == Min(s.ready, |v.inbound|) }

  /** One round takes from the supply what it takes from the client. */
  predicate Took(v: Reader, s: Supply, w: Reader, t: Supply) {
    && Supplied(w, t) && t.arrivals == Later(s.arrivals)
    && |w.inbound| <= |v.inbound| && |v.inbound| - |w.inbound| == s.ready + Next(s.arrivals) - t.ready
    && (s.arrivals == [] ==> |w.inbound| < |v.inbound|)
  }

  lemma HeaderRoundIs(m: Message, lines: seq<string>, gone: nat, v: Reader)
    requires InHead(m, lines, gone, v)
    ensures var a := v.(chunkIdx := v.chunkIdx + 1); var w := AfterHeaderLine(a);
            && InHead(m, lines, gone, a) && AfterTurn(v) == w
            && (Stops(v) <==> w.headerEnded && !w.chunked && w.contentLen == 0)
  {
    hide AfterHeaderLine, Behind, HeaderRest, Header, PlainLine;
  }

  lemma FedStays(m: Message, lines: seq<string>, gone: nat, v: Reader, k: nat)
    requires InHead(m, lines, gone, v)
    ensures InHead(m, lines, gone, Fed(v, k))
  {
    hide Behind, HeaderRest, Header, PlainLine;
  }

  /** A line read as the supply tells leaves the reader in the head, and what is told unchanged. */
  lemma HeadRound(m: Message, lines: seq<string>, gone: nat, v: Reader, s: Supply) returns (rest: seq<string>, now: nat, t: Supply)
    requires InOrder(m, lines, gone, v) && Supplied(v, s) && AfterHead(lines, gone, s).Some?
    requires lines == [] ==> s.ready + Next(s.arrivals) < 2
    ensures var a := Fed(v, Next(s.arrivals)); var w := AfterTurn(a);
            !Stops(a) && Took(v, s, w, t) && InOrder(m, rest, now, w) && AfterHead(rest, now, t) == AfterHead(lines, gone, s)
  {
    hide AfterTurn, Stops, InHead, AfterHeaderLine;
    var a := Fed(v, Next(s.arrivals));
    FedStays(m, lines, gone, v, Next(s.arrivals));
    HeadLeft(m, lines, gone, v);
    HeaderRoundIs(m, lines, gone, a);
    HeadGoesOn(m, lines, gone, a.(chunkIdx := a.chunkIdx + 1));
    var n := Reads(lines, gone, a);
    if gone + n == |NextText(lines)| + 2 {
      rest, now, t := lines[1..], 0, Supply(s.ready + Next(s.arrivals) - n, Later(s.arrivals));
    } else {
      rest, now, t := lines, gone + n, Supply(0, Later(s.arrivals));
    }
    StillInHeader(m, rest, now, AfterTurn(a));
  }

  lemma HeadLeft(m: Message, lines: seq<string>, gone: nat, v: Reader)
    requires InHead(m, lines, gone, v)
    ensures v.Ok() && gone <= |NextText(lines)| + 1 && |NextText(lines)| + 2 - gone <= |v.inbound|
    ensures (lines == [] ==> gone == 0) && forall i | 0 <= i < |lines| :: lines[i] != ""
  {
    hide Behind, HeaderRest, Header;
  }

  lemma StillInHeader(m: Message, lines: seq<string>, gone: nat, v: Reader)
    requires InHead(m, lines, gone, v)
    ensures !v.headerEnded
  {
  }

  /** The blank line, arrived as a whole. */
  lemma BlankRound(m: Message, v: Reader, s: Supply) returns (t: Supply)
    requires ValidMessage(m) && InOrder(m, [], 0, v) && Supplied(v, s) && s.ready + Next(s.arrivals) >= 2
    ensures var a := Fed(v, Next(s.arrivals)); var w := AfterTurn(a);
            !Stops(a) && Took(v, s, w, t) && BeforeBody(m, w) && AfterHead([], 0, s) == Some(t)
  {
    hide AfterTurn, Stops, InHead, AfterHeaderLine, ValidMessage, BodyText;
    var a := Fed(v, Next(s.arrivals));
    FedStays(m, [], 0, v, Next(s.arrivals));
    HeadLeft(m, [], 0, v);
    HeaderRoundIs(m, [], 0, a);
    BodyFollows(m, a.(chunkIdx := a.chunkIdx + 1));
    BlankLeft(m, v);
    t := Supply(s.ready + Next(s.arrivals) - 2, Later(s.arrivals));
  }

  lemma BlankLeft(m: Message, v: Reader)
    requires InHead(m, [], 0, v)
    ensures |v.inbound| == 2 + |BodyText(m.framing)|
  {
  }

  predicate Outlasts(n: Net, s: Supply, left: nat) {
    n.arrivals == s.arrivals && n.polls >= |s.arrivals| + left && n.checks > |s.arrivals| + left
  }

  function Surplus(s: Supply, left: nat): (d: int) { s.ready + Total(s.arrivals) - left }

  lemma RoundLasts(v: Reader, s: Supply, w: Reader, t: Supply, n: Net)
    requires v.Ok() && Outlasts(n, s, |v.inbound|) && Took(v, s, w, t)
    requires var a := Fed(v, Next(s.arrivals)); !Stops(a) && AfterTurn(a) == w
    ensures |v.inbound| > 0 || s.arrivals != []
    ensures var n' := Net(n.polls - 1, n.checks - 1, n.connected, Later(n.arrivals));
            Rounds(v, n) == Rounds(w, n') && Outlasts(n', t, |w.inbound|)
    ensures Surplus(t, |w.inbound|) == Surplus(s, |v.inbound|)
  {
    hide AfterTurn, Stops;
    RoundsUnfolds(v, n);
  }

  /** A head whose reads are told to come to its end is read, and the body follows with the supply
      that is told to be left. */
  lemma {:induction false} HeadRounds(m: Message, lines: seq<string>, gone: nat, v: Reader, s: Supply, n: Net)
    returns (w: Reader, t: Supply, n': Net)
    requires ValidMessage(m) && InOrder(m, lines, gone, v) && Supplied(v, s) && Outlasts(n, s, |v.inbound|)
    requires AfterHead(lines, gone, s).Some?
    ensures BeforeBody(m, w) && Rounds(v, n) == Rounds(w, n') && Supplied(w, t) && Outlasts(n', t, |w.inbound|)
    ensures AfterHead(lines, gone, s) == Some(t) && Surplus(t, |w.inbound|) == Surplus(s, |v.inbound|)
    decreases n.checks
  {
    hide AfterTurn, Stops, InHead, AfterHead, ValidMessage, BodyText, Rounds, BeforeBody, Surplus;
    InHeadIsOk(m, lines, gone, v);
    if lines == [] && s.ready + Next(s.arrivals) >= 2 {
      BlankIsFirst(m, v);
      t := BlankRound(m, v, s);
      w := AfterTurn(Fed(v, Next(s.arrivals)));
      RoundLasts(v, s, w, t, n);
      n' := Net(n.polls - 1, n.checks - 1, n.connected, Later(n.arrivals));
    } else {
      var rest, now, left := HeadRound(m, lines, gone, v, s);
      var u := AfterTurn(Fed(v, Next(s.arrivals)));
      RoundLasts(v, s, u, left, n);
      w, t, n' := HeadRounds(m, rest, now, u, left, Net(n.polls - 1, n.checks - 1, n.connected, Later(n.arrivals)));
    }
  }

  lemma InHeadIsOk(m: Message, lines: seq<string>, gone: nat, v: Reader)
    requires InHead(m, lines, gone, v)
    ensures v.Ok() && (lines == [] ==> gone == 0)
  {
  }

  lemma BlankIsFirst(m: Message, v: Reader)
    requires InHead(m, [], 0, v)
    ensures InOrder(m, [], 0, v)
  {
  }

  // ---------------------------------------------------- a body of known length

  ghost predicate InLengthBody(m: Message, v: Reader) {
    && v.Ok() && v.chunkIdx >= 1 && !v.isHeader && v.httpCode == Value(m.code, 10) && !v.noContent && !v.chunked
    && m.framing.ByLength? && v.contentLen == |m.framing.body| && v.payloadRead == |v.payload|
    && v.inbound != "" && v.payload + v.inbound == m.framing.body && '\0' !in m.framing.body
  }

  lemma LengthPiece(m: Message, v: Reader)
    requires InLengthBody(m, v)
    ensures var w := AfterPayload(v); var n := LineLen(v.inbound, Min(v.ready, BUF_LEN));
            && w == v.(inbound := v.inbound[n..], ready := v.ready - n, bufferAvailable := n,
                       payloadRead := |w.payload|, payload := v.payload + v.inbound[..n])
            && w.payload + w.inbound == m.framing.body
  {
    hide LineLen, CString;
    var n := LineLen(v.inbound, Min(v.ready, BUF_LEN));
    assert v.inbound == v.inbound[..n] + v.inbound[n..];
    assert v.payload + (v.inbound[..n] + v.inbound[n..]) == v.payload + v.inbound[..n] + v.inbound[n..];
    PieceIsClean(v.payload, v.inbound[..n], v.inbound[n..], m.framing.body);
    assert v.payload + v.inbound[..0] == v.payload;
  }

  /** Any piece of a body of known length is fine. */
  lemma LengthRound(m: Message, v: Reader, s: Supply) returns (t: Supply)
    requires InLengthBody(m, v) && Supplied(v, s)
    requires Surplus(s, |v.inbound|) >= 0
    ensures var a := Fed(v, Next(s.arrivals)); var w := AfterTurn(a);
            if Stops(a) then w.payload == m.framing.body && w.httpCode == Value(m.code, 10) && !w.noContent
            else Took(v, s, w, t) && InLengthBody(m, w)
  {
    hide AfterPayload, LineLen;
    var a := Fed(v, Next(s.arrivals)).(chunkIdx := v.chunkIdx + 1);
    var n := LineLen(a.inbound, Min(a.ready, BUF_LEN));
    t := Supply(s.ready + Next(s.arrivals) - n, Later(s.arrivals));
    LengthPiece(m, a);
    var w := AfterPayload(a);
    assert w.inbound == "" ==> w.payload + w.inbound == w.payload;
  }

  lemma PieceIsClean(before: string, piece: string, after: string, whole: string)
    requires before + (piece + after) == whole && '\0' !in whole
    ensures CString(piece) == piece
  {
    PartAsCString(before, piece, after);
  }

  /** The call succeeds, with the status code and the body that the server meant. */
  ghost predicate Succeeds(m: Message, o: Outcome) {
    o.Ok() && o.Code() == Value(m.code, 10) && o.view.payload == Content(m.framing)
  }

  lemma {:induction false} LengthRounds(m: Message, v: Reader, s: Supply, n: Net)
    requires InLengthBody(m, v) && Supplied(v, s) && Outlasts(n, s, |v.inbound|) && Surplus(s, |v.inbound|) >= 0
    ensures Succeeds(m, Rounds(v, n))
    decreases n.checks
  {
    hide AfterTurn, Stops, InLengthBody, Rounds, Surplus;
    LengthBodyIsOk(m, v);
    var t := LengthRound(m, v, s);
    var a := Fed(v, Next(s.arrivals));
    if Stops(a) {
      RoundsUnfolds(v, n);
    } else {
      RoundLasts(v, s, AfterTurn(a), t, n);
      LengthRounds(m, AfterTurn(a), t, Net(n.polls - 1, n.checks - 1, n.connected, Later(n.arrivals)));
    }
  }

  lemma LengthBodyIsOk(m: Message, v: Reader)
    requires InLengthBody(m, v)
    ensures v.Ok() && m.framing.ByLength? && m.framing.body != ""
  {
  }

  lemma LengthBodyBegins(m: Message, v: Reader)
    requires ValidMessage(m) && BeforeBody(m, v) && m.framing.ByLength?
    ensures InLengthBody(m, v)
  {
    hide PlainLine, Contains;
    assert "" + v.inbound == v.inbound;
  }

  // ----------------------------------------------------------- the status line

  ghost predicate AtStart(m: Message, v: Reader) {
    v == Fresh(Full(m), v.ready) && v.Ok()
  }

  lemma StatusRead(m: Message, v: Reader)
    requires ValidMessage(m) && AtStart(m, v)
    ensures var lines, n := HeadLines(m), Min(v.ready, |StatusLine(m)| + 2); var piece := (StatusLine(m) + "\r\n")[..n];
            && |StatusLine(m)| + 2 <= |v.inbound|
            && AfterStatusLine(v) == v.(
                 chunkIdx := 1, ready := v.ready - n, inbound := (NextText(lines) + "\r\n" + Behind(m, lines))[n..],
                 header := piece, isHeader := StatusCode(piece) > 0, httpCode := StatusCode(piece))
  {
    hide CString, LineLen, StatusCode, ValidMessage, Behind, StatusLine, Full;
    var line, n := NextText(HeadLines(m)), Min(v.ready, |StatusLine(m)| + 2);
    var rest := Behind(m, HeadLines(m));
    HeadLinesMakeHeader(m);
    HeadLinesArePlain(m);
    NextIsPlain(HeadLines(m));
    assert v.inbound == (line + "\r\n" + rest)[0..];
    CutLineLen(line, rest, 0, v.ready);
    PartOf(line, rest, 0, n);
    PieceAsCString(line, 0, n);
    assert "" + (line + "\r\n")[..n] == (line + "\r\n")[..n];
  }

  lemma HeadLinesMakeHeader(m: Message)
    ensures HeaderRest(HeadLines(m), 0) == Header(m) && Full(m) == NextText(HeadLines(m)) + "\r\n" + Behind(m, HeadLines(m))
  {
    hide Lines, BodyText;
    assert HeadLines(m)[1..] == m.lines && m.lines[..|m.lines|] == m.lines;
    assert (StatusLine(m) + "\r\n")[0..] == StatusLine(m) + "\r\n";
  }

  lemma HeadLinesArePlain(m: Message)
    requires ValidMessage(m)
    ensures forall i | 0 <= i < |HeadLines(m)| :: PlainLine(HeadLines(m)[i])
  {
    hide PlainLine, ValidFraming;
  }

  lemma StatusGoesOn(m: Message, v: Reader)
    requires ValidMessage(m) && AtStart(m, v) && |PROTOCOL| + |m.code| <= v.ready
    ensures var n := Min(v.ready, |StatusLine(m)| + 2); var w := AfterTurn(v);
            && !Stops(v) && w.ready == v.ready - n && |w.inbound| == |v.inbound| - n
            && (if n == |StatusLine(m)| + 2 then InHead(m, m.lines, 0, w) else InHead(m, HeadLines(m), n, w))
  {
    hide AfterStatusLine, ValidMessage, StatusCode, BodyText, Lines, HeaderRest, Behind, PlainLine, Header, StatusLine;
    var lines, n := HeadLines(m), Min(v.ready, |StatusLine(m)| + 2);
    StatusRead(m, v);
    StatusOfCutIff(m, n);
    HeadLinesMakeHeader(m);
    HeadLinesArePlain(m);
    CodeIsPositive(m);
    HeaderMoves(lines, 0, n, "", Header(m));
    assert "" + Header(m) == Header(m) && lines[1..] == m.lines;
    assert "" + (StatusLine(m) + "\r\n")[0..0 + n] == (StatusLine(m) + "\r\n")[..n];
    NextLineComes(m, lines);
  }

  /** A first read that reaches behind the status code leaves the reader in the head. */
  lemma StatusRound(m: Message, v: Reader, s: Supply) returns (rest: seq<string>, now: nat, t: Supply)
    requires ValidMessage(m) && AtStart(m, v) && Supplied(v, s) && |PROTOCOL| + |m.code| <= s.ready + Next(s.arrivals)
    requires AfterHead(HeadLines(m), 0, s).Some?
    ensures var a := Fed(v, Next(s.arrivals)); var w := AfterTurn(a);
            !Stops(a) && Took(v, s, w, t) && InOrder(m, rest, now, w) && AfterHead(rest, now, t) == AfterHead(HeadLines(m), 0, s)
  {
    hide AfterTurn, Stops, InHead, ValidMessage, Full, StatusLine;
    var a := Fed(v, Next(s.arrivals));
    StatusIsThere(m, v);
    StatusGoesOn(m, a);
    var n := Min(a.ready, |StatusLine(m)| + 2);
    assert HeadLines(m)[1..] == m.lines;
    if n == |StatusLine(m)| + 2 {
      rest, now, t := m.lines, 0, Supply(s.ready + Next(s.arrivals) - n, Later(s.arrivals));
    } else {
      rest, now, t := HeadLines(m), n, Supply(0, Later(s.arrivals));
    }
    HeadLeft(m, rest, now, AfterTurn(a));
  }

  lemma StatusIsThere(m: Message, v: Reader)
    requires ValidMessage(m) && AtStart(m, v)
    ensures |StatusLine(m)| + 2 <= |v.inbound| && |PROTOCOL| + |m.code| <= |StatusLine(m)|
  {
    hide BodyText, Lines;
    CodeIsPositive(m);
  }

  lemma CodeIsPositive(m: Message)
    requires ValidMessage(m)
    ensures Value(m.code, 10) > 0 && Value(m.code, 10) != NO_CONTENT && |PROTOCOL| + |m.code| <= |StatusLine(m)|
  {
    hide ValidFraming;
  }

  // ------------------------------------------------- as long as all is in time

  /** A response whose head is told to come to its end: from the wait for the first byte to the
      body, which finds the supply that is told to be left. */
  lemma {:induction false} WholeHeadIsRead(m: Message, v: Reader, s: Supply, n: Net) returns (w: Reader, t: Supply, n': Net)
    requires ValidMessage(m) && AtStart(m, v) && Supplied(v, s) && Outlasts(n, s, |v.inbound|)
    requires AfterWholeHead(m, n.connected, s).Some?
    ensures BeforeBody(m, w) && Waits(v, n) == Rounds(w, n') && Supplied(w, t) && Outlasts(n', t, |w.inbound|)
    ensures AfterWholeHead(m, n.connected, s) == Some(t) && Surplus(t, |w.inbound|) == Surplus(s, |v.inbound|)
    decreases |s.arrivals|
  {
    hide AfterTurn, Stops, InHead, AfterHead, ValidMessage, Full, Fresh, BodyText, Rounds, Waits, BeforeBody, Surplus, StatusLine;
    WaitsUnfolds(v, n);
    StatusIsThere(m, v);
    if n.connected && v.ready == 0 && s.arrivals != [] {
      var u := Fed(v, Next(n.arrivals));
      var t' := Supply(s.arrivals[0], s.arrivals[1..]);
      StillAtStart(m, v, Next(n.arrivals));
      SurplusMoves(s, |v.inbound|);
      w, t, n' := WholeHeadIsRead(m, u, t', n.(checks := n.checks - 1, arrivals := Later(n.arrivals)));
    } else {
      var rest, now, left := StatusRound(m, v, s);
      var u := AfterTurn(Fed(v, Next(s.arrivals)));
      RoundLasts(v, s, u, left, n);
      w, t, n' := HeadRounds(m, rest, now, u, left, Net(n.polls - 1, n.checks - 1, n.connected, Later(n.arrivals)));
    }
  }

  lemma StillAtStart(m: Message, v: Reader, k: nat)
    requires AtStart(m, v)
    ensures AtStart(m, Fed(v, k))
  {
    hide Full;
  }

  lemma SurplusMoves(s: Supply, left: nat)
    requires s.ready == 0 && s.arrivals != []
    ensures Surplus(Supply(s.arrivals[0], s.arrivals[1..]), left) == Surplus(s, left)
  {
  }

  /** A response of announced length that is told to be read, and all of which arrives in time. */
  lemma LengthResponseSucceeds(m: Message, s: Supply, n: Net)
    requires ValidMessage(m) && m.framing.ByLength? && s.ready + Total(s.arrivals) >= |Full(m)|
    requires n.checks > 0 && Outlasts(n.(checks := n.checks - 1), s, |Full(m)|)
    requires AfterWholeHead(m, n.connected, s).Some?
    ensures Succeeds(m, Handled(Fresh(Full(m), Min(s.ready, |Full(m)|)), n))
  {
    hide ValidMessage, Full, Rounds, Waits, AfterWholeHead, Total, BeforeBody, InLengthBody, Succeeds;
    var v := Fresh(Full(m), Min(s.ready, |Full(m)|));
    var w, t, n' := WholeHeadIsRead(m, v, s, n.(checks := n.checks - 1));
    LengthBodyBegins(m, w);
    LengthRounds(m, w, t, n');
  }
}
