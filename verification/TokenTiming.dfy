/** Exactly when a response that arrives bit by bit is read. */
module TokenTiming {
  import opened Wrappers
  import opened Text
  import opened HttpReader
  import opened ChunkFraming
  import opened ChunkTiming
  import opened TokenResponse
  import opened TokenMessage
  import opened TokenHandler
  import opened TokenArrival

  // -------------------------------------------------- a head that is not read

  /** No header line begins like the body, so that nothing left of a head passes for it. */
  ghost predicate StartsApart(m: Message) {
    && m.framing.ByLength? && m.framing.body != "" && m.framing.body[0] != '\r' && m.framing.body[0] != '\n'
    && forall i | 0 <= i < |m.lines| :: m.lines[i] == "" || m.lines[i][0] != m.framing.body[0]
  }

  predicate Apart(lines: seq<string>, c: char) {
    forall i | 1 <= i < |lines| :: lines[i] == "" || lines[i][0] != c
  }

  /** The reader takes for the body what is not. */
  ghost predicate Misled(m: Message, v: Reader) {
    && v.Ok() && v.chunkIdx >= 1 && !v.isHeader && !v.chunked && m.framing.ByLength? && m.framing.body != ""
    && (if v.payload != "" then v.payload[0] != m.framing.body[0]
        else v.inbound != "" ==> v.inbound[0] != m.framing.body[0] && v.inbound[0] != '\0')
  }

  ghost predicate Right(m: Message, v: Reader) {
    v.httpCode == Value(m.code, 10) && v.payload != "" && v.payload == Content(m.framing)
  }

  /** A call fails if this round's answer is not right, and those of the rounds to come fail. */
  lemma FailsNext(m: Message, v: Reader, n: Net)
    requires v.Ok()
    requires var a := Fed(v, Next(n.arrivals)); var w := AfterTurn(a);
             n.checks > 0 ==>
               !Right(m, w) &&
               (!Stops(a) && n.polls > 0 ==> !Succeeds(m, Rounds(w, Net(n.polls - 1, n.checks - 1, n.connected, Later(n.arrivals)))))
    ensures !Succeeds(m, Rounds(v, n))
  {
    hide AfterTurn, Stops, Rounds;
    RoundsUnfolds(v, n);
  }

  lemma MisledRound(m: Message, v: Reader, k: nat)
    requires Misled(m, v)
    ensures var w := AfterTurn(Fed(v, k)); Misled(m, w) && !Right(m, w)
  {
    hide LineLen;
    var a := Fed(v, k).(chunkIdx := v.chunkIdx + 1);
    var n := LineLen(a.inbound, Min(a.ready, BUF_LEN));
    var piece := a.inbound[..n];
    assert AfterTurn(Fed(v, k)) == AfterPayload(a);
    if n > 0 && v.payload == "" {
      assert CString(piece) != "" && CString(piece)[0] == piece[0] == v.inbound[0];
    }
  }

  lemma {:induction false} MisledRounds(m: Message, v: Reader, n: Net)
    requires Misled(m, v)
    ensures !Succeeds(m, Rounds(v, n))
    decreases n.checks
  {
    hide AfterTurn, Stops, Rounds;
    var w := AfterTurn(Fed(v, Next(n.arrivals)));
    MisledRound(m, v, Next(n.arrivals));
    if n.checks > 0 && n.polls > 0 {
      MisledRounds(m, w, Net(n.polls - 1, n.checks - 1, n.connected, Later(n.arrivals)));
    }
    FailsNext(m, v, n);
  }

  lemma WrongCodeRound(v: Reader, k: nat)
    requires v.Ok() && v.chunkIdx >= 1
    ensures AfterTurn(Fed(v, k)).httpCode == v.httpCode && AfterTurn(Fed(v, k)).chunkIdx >= 1
  {
    hide PieceStep, ContentLength, IsChunked, CString, LineLen;
  }

  lemma {:induction false} WrongCodeRounds(m: Message, v: Reader, n: Net)
    requires v.Ok() && v.chunkIdx >= 1 && v.httpCode != Value(m.code, 10)
    ensures !Succeeds(m, Rounds(v, n))
    decreases n.checks
  {
    hide AfterTurn, Stops, Rounds;
    var w := AfterTurn(Fed(v, Next(n.arrivals)));
    WrongCodeRound(v, Next(n.arrivals));
    if n.checks > 0 && n.polls > 0 {
      WrongCodeRounds(m, w, Net(n.polls - 1, n.checks - 1, n.connected, Later(n.arrivals)));
    }
    FailsNext(m, v, n);
  }

  lemma NotChunkedYet(m: Message, header: string, rest: string)
    requires ValidMessage(m) && m.framing.ByLength? && header + rest == Header(m)
    ensures !IsChunked(header)
  {
    var name := "Transfer-Encoding: ";
    if Contains(header, name) {
      var i: nat :| OccursAt(header, name, i);
      assert OccursAt(header + rest, name, i);
    }
    FindsNothing(header, name);
  }

  /** What is left behind a header that ended early does not begin like the body. */
  lemma LeftoverStarts(m: Message, lines: seq<string>, cut: bool)
    requires StartsApart(m) && Apart(lines, m.framing.body[0]) && (lines == [] ==> cut)
    requires forall i | 0 <= i < |lines| :: PlainLine(lines[i])
    ensures var s := (if cut then "\n" else "") + Behind(m, lines);
            s != "" && s[0] != m.framing.body[0] && s[0] != '\0'
  {
    if !cut && |lines| > 1 {
      var next := lines[1];
      assert lines[1..] != [] && lines[1..][0] == next && PlainLine(next);
      assert Behind(m, lines)[0] == next[0] && next[0] in next;
    }
  }

  lemma EndedEarly(m: Message, lines: seq<string>, gone: nat, v: Reader)
    requires ValidMessage(m) && InHead(m, lines, gone, v) && StartsApart(m) && Apart(lines, m.framing.body[0])
    requires gone == |NextText(lines)| && v.ready > 0 && (lines == [] ==> v.ready == 1)
    ensures Misled(m, AfterTurn(v))
  {
    hide AfterHeaderLine, AfterTurn, Behind, HeaderRest, PlainLine, ValidMessage, Header, IsChunked;
    var a := v.(chunkIdx := v.chunkIdx + 1);
    HeaderRoundIs(m, lines, gone, v);
    CodeIsPositive(m);
    HeadEnds(m, lines, gone, a);
    NotChunkedYet(m, v.header, HeaderRest(lines, gone));
    LeftoverStarts(m, lines, v.ready == 1);
  }

  lemma NothingYet(m: Message, lines: seq<string>, gone: nat, v: Reader)
    requires InHead(m, lines, gone, v)
    ensures !Right(m, v)
  {
  }

  /** Once a read has stopped in front of a line's CRLF, the header ends there. */
  lemma {:induction false} CutRounds(m: Message, lines: seq<string>, v: Reader, n: Net)
    requires ValidMessage(m) && lines != [] && InHead(m, lines, |lines[0]|, v) && StartsApart(m) && Apart(lines, m.framing.body[0])
    ensures !Succeeds(m, Rounds(v, n))
    decreases n.checks
  {
    hide AfterTurn, Stops, Rounds, InHead, AfterHeaderLine, ValidMessage, StartsApart, Misled, Apart, Right, Succeeds;
    var a := Fed(v, Next(n.arrivals));
    var w := AfterTurn(a);
    FedStays(m, lines, |lines[0]|, v, Next(n.arrivals));
    InHeadIsOk(m, lines, |lines[0]|, v);
    if a.ready > 0 {
      EndedEarly(m, lines, |lines[0]|, a);
      MisledIsWrong(m, w);
    } else {
      HeaderRoundIs(m, lines, |lines[0]|, a);
      HeadGoesOn(m, lines, |lines[0]|, a.(chunkIdx := a.chunkIdx + 1));
      NothingYet(m, lines, |lines[0]|, w);
    }
    if n.checks > 0 && n.polls > 0 {
      var n' := Net(n.polls - 1, n.checks - 1, n.connected, Later(n.arrivals));
      if a.ready > 0 {
        MisledRounds(m, w, n');
      } else {
        CutRounds(m, lines, w, n');
      }
    }
    FailsNext(m, v, n);
  }

  lemma MisledIsWrong(m: Message, v: Reader)
    requires Misled(m, v)
    ensures v.Ok() && !Right(m, v)
  {
  }

  /** The round that a head not told to come to its end begins with: it ends the header early,
      stops in front of a line's CRLF, or leaves the head still not told to come to its end. */
  lemma UntoldRound(m: Message, lines: seq<string>, gone: nat, v: Reader, s: Supply) returns (rest: seq<string>, now: nat, t: Supply)
    requires InOrder(m, lines, gone, v) && Supplied(v, s) && AfterHead(lines, gone, s) == None
    requires lines == [] ==> s.ready + Next(s.arrivals) != 1
    ensures var w := AfterTurn(Fed(v, Next(s.arrivals)));
            && InHead(m, rest, now, w) && Supplied(w, t) && t.arrivals == Later(s.arrivals)
            && ((rest != [] && now == |rest[0]|) || (InOrder(m, rest, now, w) && AfterHead(rest, now, t) == None))
            && (rest == lines || (lines != [] && rest == lines[1..]))
  {
    hide AfterTurn, Stops, InHead, AfterHeaderLine;
    var a := Fed(v, Next(s.arrivals));
    FedStays(m, lines, gone, v, Next(s.arrivals));
    HeadLeft(m, lines, gone, v);
    HeaderRoundIs(m, lines, gone, a);
    HeadGoesOn(m, lines, gone, a.(chunkIdx := a.chunkIdx + 1));
    var n := Reads(lines, gone, a);
    if gone + n == |NextText(lines)| + 2 {
      rest, now, t := lines[1..], 0, Supply(s.ready + Next(s.arrivals) - n, Later(s.arrivals));
    } else {
      rest, now, t := lines, gone + n, Supply(0, Later(s.arrivals));
    }
  }

  lemma {:induction false} UntoldRounds(m: Message, lines: seq<string>, gone: nat, v: Reader, s: Supply, n: Net)
    requires ValidMessage(m) && InOrder(m, lines, gone, v) && StartsApart(m) && Apart(lines, m.framing.body[0])
    requires Supplied(v, s) && n.arrivals == s.arrivals && AfterHead(lines, gone, s) == None
    ensures !Succeeds(m, Rounds(v, n))
    decreases n.checks
  {
    hide AfterTurn, Stops, Rounds, InHead, AfterHead, AfterHeaderLine, ValidMessage, StartsApart, Misled, Right, Succeeds;
    var a := Fed(v, Next(n.arrivals));
    var w := AfterTurn(a);
    InHeadIsOk(m, lines, gone, v);
    FedStays(m, lines, gone, v, Next(n.arrivals));
    var n' := if n.checks > 0 && n.polls > 0 then Net(n.polls - 1, n.checks - 1, n.connected, Later(n.arrivals)) else n;
    if lines == [] && s.ready + Next(s.arrivals) == 1 {
      BlankThere(m, v);
      EndedEarly(m, lines, gone, a);
      MisledIsWrong(m, w);
      MisledRounds(m, w, n');
    } else {
      var rest, now, t := UntoldRound(m, lines, gone, v, s);
      NothingYet(m, rest, now, w);
      InHeadIsOk(m, rest, now, w);
      if rest != [] && now == |rest[0]| {
        CutRounds(m, rest, w, n');
      } else if n.checks > 0 && n.polls > 0 {
        UntoldRounds(m, rest, now, w, t, n');
      }
    }
    FailsNext(m, v, n);
  }

  lemma BlankThere(m: Message, v: Reader)
    requires InHead(m, [], 0, v)
    ensures |v.inbound| >= 2
  {
  }

  lemma ApartLines(m: Message)
    requires StartsApart(m)
    ensures Apart(HeadLines(m), m.framing.body[0]) && Apart(m.lines, m.framing.body[0])
  {
  }

  /** One read further, a head not told to come to its end is still not, unless the read stops in
      front of a line's CRLF. */
  lemma UntoldFurther(lines: seq<string>, s: Supply)
    requires lines != [] && AfterHead(lines, 0, s) == None
    ensures var len, now := |lines[0]|, s.ready + Next(s.arrivals);
            && (now >= len + 2 ==> AfterHead(lines[1..], 0, Supply(now - (len + 2), Later(s.arrivals))) == None)
            && (now < len + 2 && now != len ==> AfterHead(lines, now, Supply(0, Later(s.arrivals))) == None)
  {
  }

  lemma UntoldStatus(m: Message, v: Reader, s: Supply) returns (rest: seq<string>, now: nat, t: Supply)
    requires ValidMessage(m) && AtStart(m, v) && Supplied(v, s) && |PROTOCOL| + |m.code| <= s.ready + Next(s.arrivals)
    requires AfterHead(HeadLines(m), 0, s) == None
    ensures var w := AfterTurn(Fed(v, Next(s.arrivals)));
            && InHead(m, rest, now, w) && Supplied(w, t) && t.arrivals == Later(s.arrivals)
            && ((rest != [] && now == |rest[0]|) || (InOrder(m, rest, now, w) && AfterHead(rest, now, t) == None))
            && (rest == HeadLines(m) || rest == m.lines)
  {
    hide AfterTurn, Stops, InHead, ValidMessage, Full, StatusLine, AfterHead;
    var a := Fed(v, Next(s.arrivals));
    StatusIsThere(m, v);
    StillAtStart(m, v, Next(s.arrivals));
    StatusGoesOn(m, a);
    UntoldFurther(HeadLines(m), s);
    var n := Min(a.ready, |StatusLine(m)| + 2);
    assert HeadLines(m)[1..] == m.lines;
    if n == |StatusLine(m)| + 2 {
      rest, now, t := m.lines, 0, Supply(s.ready + Next(s.arrivals) - n, Later(s.arrivals));
    } else {
      rest, now, t := HeadLines(m), n, Supply(0, Later(s.arrivals));
    }
    HeadLeft(m, rest, now, AfterTurn(a));
  }

  /** The first round, when the head is not told to be read. */
  lemma UntoldStart(m: Message, v: Reader, s: Supply, n: Net)
    requires ValidMessage(m) && AtStart(m, v) && StartsApart(m) && Supplied(v, s) && n.arrivals == s.arrivals
    requires s.ready + Next(s.arrivals) < |PROTOCOL| + |m.code| || AfterHead(HeadLines(m), 0, s) == None
    ensures !Succeeds(m, Rounds(v, n))
  {
    hide AfterTurn, Stops, Rounds, InHead, ValidMessage, StartsApart, Full, StatusLine, Right, Succeeds, Apart, AfterHead, Fresh;
    var a := Fed(v, Next(n.arrivals));
    var w := AfterTurn(a);
    var n' := if n.checks > 0 && n.polls > 0 then Net(n.polls - 1, n.checks - 1, n.connected, Later(n.arrivals)) else n;
    StatusIsThere(m, v);
    StillAtStart(m, v, Next(n.arrivals));
    StartIsNothing(m, a);
    if s.ready + Next(s.arrivals) < |PROTOCOL| + |m.code| {
      CodeIsCut(m, a);
      WrongCodeRounds(m, w, n');
    } else {
      var rest, now, t := UntoldStatus(m, v, s);
      ApartLines(m);
      if rest != [] && now == |rest[0]| {
        CutRounds(m, rest, w, n');
      } else if n.checks > 0 && n.polls > 0 {
        UntoldRounds(m, rest, now, w, t, n');
      }
    }
    FailsNext(m, v, n);
  }

  lemma StartIsNothing(m: Message, v: Reader)
    requires AtStart(m, v)
    ensures !Right(m, AfterTurn(v))
  {
    hide StatusCode, CString, LineLen;
  }

  lemma CodeIsCut(m: Message, v: Reader)
    requires ValidMessage(m) && AtStart(m, v) && v.ready < |PROTOCOL| + |m.code|
    ensures var w := AfterTurn(v); w.chunkIdx >= 1 && w.httpCode != Value(m.code, 10) && w.Ok()
  {
    hide AfterStatusLine, ValidMessage, StatusCode, StatusLine, Full;
    StatusIsThere(m, v);
    StatusRead(m, v);
    StatusOfCutIff(m, v.ready);
  }

  lemma {:induction false} UntoldWaits(m: Message, v: Reader, s: Supply, n: Net)
    requires ValidMessage(m) && AtStart(m, v) && StartsApart(m) && Supplied(v, s) && n.arrivals == s.arrivals
    requires AfterWholeHead(m, n.connected, s) == None
    ensures !Succeeds(m, Waits(v, n))
    decreases n.checks
  {
    hide AfterTurn, Stops, AfterHead, ValidMessage, StartsApart, Full, Fresh, StatusLine, Rounds, Waits;
    WaitsUnfolds(v, n);
    StatusIsThere(m, v);
    if n.connected && v.ready == 0 {
      if n.checks > 0 {
        StillAtStart(m, v, Next(n.arrivals));
        var t := Supply(Next(s.arrivals), Later(s.arrivals));
        UntoldWaits(m, Fed(v, Next(n.arrivals)), t, n.(checks := n.checks - 1, arrivals := Later(n.arrivals)));
      }
    } else {
      UntoldStart(m, v, s, n);
    }
  }

  /** A response of announced length, no line of which begins like its body, all of whose bytes
      arrive while the call still waits: however they arrive, the call returns its status code and
      its body exactly if its head is told to be read, by the lengths of its lines and what arrives
      in each round. */
  lemma LengthResponseIsReadIff(m: Message, s: Supply, n: Net)
    requires ValidMessage(m) && StartsApart(m) && s.ready + Total(s.arrivals) >= |Full(m)|
    requires n.checks > 0 && Outlasts(n.(checks := n.checks - 1), s, |Full(m)|)
    ensures Succeeds(m, Handled(Fresh(Full(m), Min(s.ready, |Full(m)|)), n)) <==> AfterWholeHead(m, n.connected, s).Some?
  {
    hide ValidMessage, Full, Handled, Succeeds, AfterWholeHead, Waits;
    if AfterWholeHead(m, n.connected, s).Some? {
      LengthResponseSucceeds(m, s, n);
    } else {
      var v := Fresh(Full(m), Min(s.ready, |Full(m)|));
      HandledWaits(v, n);
      UntoldWaits(m, v, s, n.(checks := n.checks - 1));
    }
  }

  lemma HandledWaits(v: Reader, n: Net)
    requires v.Ok() && n.checks > 0
    ensures Handled(v, n) == Waits(v, n.(checks := n.checks - 1))
  {
  }

  // ------------------------------------------------- a response in two parts

  /** Nothing arrives for `k` rounds, then the rest. */
  function Pause(k: nat, more: nat): (arrivals: seq<nat>)
    ensures |arrivals| == k + 1
  {
    if k == 0 then [more] else [0] + Pause(k - 1, more)
  }

  lemma {:induction false} TotalOfPause(k: nat, more: nat)
    ensures Total(Pause(k, more)) == more
  {
    if k > 0 { TotalOfPause(k - 1, more); }
  }

  lemma {:induction false} AllThere(lines: seq<string>, gone: nat, s: Supply)
    requires gone <= |NextText(lines)| + 1 && gone + s.ready + Next(s.arrivals) >= |Lines(lines)| + 2
    ensures AfterHead(lines, gone, s).Some?
    decreases |lines|
  {
    if lines != [] {
      AllThere(lines[1..], 0, Supply(gone + s.ready + Next(s.arrivals) - (|lines[0]| + 2), Later(s.arrivals)));
    }
  }

  lemma {:induction false} PauseIsHarmless(lines: seq<string>, gone: nat, k: nat, more: nat)
    requires gone <= |NextText(lines)| + 1 && gone + more >= |Lines(lines)| + 2
    requires if lines == [] then gone == 0 else gone != |lines[0]|
    ensures AfterHead(lines, gone, Supply(0, Pause(k, more))).Some?
  {
    if k == 0 {
      AllThere(lines, gone, Supply(0, Pause(k, more)));
    } else {
      PauseGoesOn(k, more);
      PauseIsHarmless(lines, gone, k - 1, more);
    }
  }

  lemma FirstLineBytes(lines: seq<string>)
    requires lines != [] && PlainLine(lines[0])
    ensures var len := |lines[0]|; var s := Lines(lines);
            && 0 < len && |s| == len + 2 + |Lines(lines[1..])| && s[len + 2..] == Lines(lines[1..])
            && forall i | 0 <= i < len + 2 :: s[i] == '\r' <==> i == len
  {
    var line := lines[0];
    assert forall i | 0 <= i < |line| :: Lines(lines)[i] == line[i] && line[i] in line;
  }

  lemma {:induction false} CutIsHarmlessIff(lines: seq<string>, n: nat, k: nat, more: nat)
    requires forall i | 0 <= i < |lines| :: PlainLine(lines[i])
    requires k > |lines| && n + more >= |Lines(lines)| + 2
    ensures AfterHead(lines, 0, Supply(n, Pause(k, more))).Some? <==>
            (n < |Lines(lines)| ==> Lines(lines)[n] != '\r') && n != |Lines(lines)| + 1
    decreases |lines|
  {
    hide PlainLine, Pause;
    PauseGoesOn(k, more);
    if lines == [] {
      if n == 0 { PauseIsHarmless(lines, 0, k - 1, more); }
    } else {
      hide Lines;
      var len := |lines[0]|;
      FirstLineBytes(lines);
      if n >= len + 2 {
        CutIsHarmlessIff(lines[1..], n - (len + 2), k - 1, more);
      } else if n != len {
        PauseIsHarmless(lines, n, k - 1, more);
      }
    }
  }

  lemma PauseGoesOn(k: nat, more: nat)
    requires k > 0
    ensures var a := Pause(k, more); a != [] && Next(a) == 0 && Later(a) == Pause(k - 1, more)
  {
  }

  /** If such a response arrives in two parts, with a pause between them in which the first is used
      up, the call succeeds exactly if the first part reaches behind the status code, does not end in
      front of the CRLF of a line, and does not split the CRLF of the blank line. */
  lemma TwoPartsAreReadIff(m: Message, n: nat, k: nat, net: Net)
    requires ValidMessage(m) && StartsApart(m) && 0 < n <= |Full(m)| && k > |m.lines| + 1
    requires net.arrivals == Pause(k, |Full(m)| - n) && net.polls > k + |Full(m)| && net.checks > k + |Full(m)| + 2
    ensures Succeeds(m, Handled(Fresh(Full(m), n), net)) <==>
            && |PROTOCOL| + |m.code| <= n
            && (n < |Header(m)| ==> Header(m)[n] != '\r') && n != |Header(m)| + 1
  {
    hide ValidMessage, StartsApart, Handled, Succeeds, Pause, AfterHead, StatusLine, PlainLine;
    var s := Supply(n, net.arrivals);
    TotalOfPause(k, |Full(m)| - n);
    LengthResponseIsReadIff(m, s, net);
    HeadLinesArePlain(m);
    HeaderIsLines(m);
    PauseGoesOn(k, |Full(m)| - n);
    CutIsHarmlessIff(HeadLines(m), n, k, |Full(m)| - n);
  }

  lemma HeaderIsLines(m: Message)
    ensures Lines(HeadLines(m)) == Header(m) && |Full(m)| >= |Header(m)| + 2
  {
    hide BodyText, StatusLine;
    assert HeadLines(m)[1..] == m.lines && m.lines[..|m.lines|] == m.lines;
    assert Full(m) == Header(m) + ("\r\n" + BodyText(m.framing));
  }

  /** The 40 bytes of a plain response, cut in two anywhere. */
  lemma PlainResponseInTwo(n: nat, k: nat, net: Net)
    requires 0 < n <= 40 && k > 2
    requires net.arrivals == Pause(k, 40 - n) && net.polls > k + 40 && net.checks > k + 42
    ensures |Full(PLAIN)| == 40
    ensures Succeeds(PLAIN, Handled(Fresh(Full(PLAIN), n), net)) <==> 12 <= n && n != 15 && n != 34 && n != 37
  {
    hide ValidMessage, Handled, Succeeds, Pause, Full, Header, Fresh, Lines;
    PlainMessageIsValid();
    PlainIsApart();
    PlainBytes();
    TwoPartsAreReadIff(PLAIN, n, k, net);
  }

  lemma PlainIsApart()
    ensures StartsApart(PLAIN) && |PROTOCOL| + |PLAIN.code| == 12 && |PLAIN.lines| == 1
  {
  }

  lemma PlainBytes()
    ensures |Header(PLAIN)| == 36 && |Full(PLAIN)| == 40
    ensures forall i | 0 <= i < 36 :: Header(PLAIN)[i] == '\r' <==> i == 15 || i == 34
  {
    hide Header, Lines;
    assert BodyText(PLAIN.framing) == "{}";
    PlainTexts();
    PlainLines();
    HeaderIsLines(PLAIN);
    HeaderAndBody(PLAIN);
    var first, second := "HTTP/1.1 200 OK", "Content-Length: 2";
    forall i | 0 <= i < 36
      ensures Header(PLAIN)[i] == '\r' <==> i == 15 || i == 34
    {
      assert i < 15 ==> first[i] in first;
      assert 17 <= i < 34 ==> second[i - 17] in second;
    }
  }

  lemma HeaderAndBody(m: Message)
    ensures |Full(m)| == |Header(m)| + 2 + |BodyText(m.framing)|
  {
    hide BodyText, StatusLine;
    assert m.lines[..|m.lines|] == m.lines;
  }

  // -------------------------------------------------------------- chunked bodies

  ghost predicate InChunkedBody(v: Reader) {
    v.Ok() && v.chunkIdx >= 1 && !v.isHeader && v.chunked
  }

  /** In a chunked body the loop is the decoder, fed as it arrives. */
  lemma {:induction false} ChunkRounds(v: Reader, n: Net)
    requires InChunkedBody(v)
    requires var r := RunFeed(v.chunkState, v.inbound, v.ready, n.arrivals, BUF_LEN); r.complete && '\0' !in r.payload
    requires n.polls >= |n.arrivals| && n.checks > |n.arrivals|
    ensures var o := Rounds(v, n);
            && o.Answered? && o.view.httpCode == v.httpCode && o.view.noContent == v.noContent
            && o.view.payload == v.payload + RunFeed(v.chunkState, v.inbound, v.ready, n.arrivals, BUF_LEN).payload
    decreases n.checks
  {
    hide AfterTurn, Stops, Rounds, ChunkStep, LineLen, CString, RunFeed;
    NothingFed(v);
    var a := Fed(v, Next(n.arrivals));
    var step := ChunkStep(v.chunkState, v.inbound, Min(a.ready, BUF_LEN), false);
    RunUnfolds(v.chunkState, v.inbound, v.ready, n.arrivals, BUF_LEN, step);
    RoundsUnfolds(v, n);
    var w := AfterTurn(a);
    var r := RunFeed(v.chunkState, v.inbound, v.ready, n.arrivals, BUF_LEN);
    if step.olen == -1 {
      ChunkPieceEnds(a, step);
      assert v.payload + "" == v.payload;
    } else {
      var rest := RunFeed(step.next, v.inbound[step.taken..], a.ready - step.taken, n.arrivals[1..], BUF_LEN);
      NulFreeIn(step.copied, rest.payload);
      ChunkPieceGoesOn(a, step);
      ChunkRounds(w, Net(n.polls - 1, n.checks - 1, n.connected, Later(n.arrivals)));
      assert v.payload + (step.copied + rest.payload) == v.payload + step.copied + rest.payload;
    }
  }

  lemma NothingFed(v: Reader)
    requires v.Ok()
    ensures !RunFeed(v.chunkState, v.inbound, v.ready, [], BUF_LEN).complete
  {
  }

  lemma NulFreeIn(a: string, b: string)
    requires '\0' !in a + b
    ensures '\0' !in a && '\0' !in b && CString(a) == a
  {
    assert forall c | c in a :: c in a + b;
    assert forall c | c in b :: c in a + b;
    PartAsCString("", a, b);
  }

  lemma ChunkPieceEnds(a: Reader, step: Step)
    requires InChunkedBody(a) && step == ChunkStep(a.chunkState, a.inbound, Min(a.ready, BUF_LEN), false) && step.olen == -1
    ensures var w := AfterTurn(a);
            Stops(a) && w.payload == a.payload && w.httpCode == a.httpCode && w.noContent == a.noContent && w.Ok()
  {
    hide ChunkStep, LineLen, CString;
  }

  lemma ChunkPieceGoesOn(a: Reader, step: Step)
    requires InChunkedBody(a) && step == ChunkStep(a.chunkState, a.inbound, Min(a.ready, BUF_LEN), false) && step.olen != -1
    requires CString(step.copied) == step.copied
    ensures var w := AfterTurn(a);
            && !Stops(a) && InChunkedBody(w) && w.payload == a.payload + step.copied
            && w.httpCode == a.httpCode && w.noContent == a.noContent
            && w.chunkState == step.next && w.inbound == a.inbound[step.taken..] && w.ready == a.ready - step.taken
  {
    hide ChunkStep, LineLen, CString;
    CopiedIfAny(a.chunkState, a.inbound, Min(a.ready, BUF_LEN));
    assert a.payload + "" == a.payload;
  }

  lemma CopiedIfAny(cs: ChunkState, s: string, limit: nat)
    requires limit <= |s|
    ensures var step := ChunkStep(cs, s, limit, false); (step.olen <= 0 ==> step.copied == "") && step.olen >= -1
  {
  }

  /** A read that goes on hands out what is due. */
  lemma GoesKeepsDue(cs: ChunkState, place: Place, todo: seq<Chunk>, last: Last, limit: nat) returns (next: ChunkState)
    requires ValidChunks(todo, BUF_LEN) && ValidLast(last, BUF_LEN) && Sits(cs, place)
    requires limit <= |Pending(place, todo, last)|
    ensures var f := FateOf(place, todo, last, limit);
            f.Goes? ==> Sits(next, f.place) && ValidChunks(f.todo, BUF_LEN) && Due(place, todo) == f.data + Due(f.place, f.todo)
  {
    hide ChunkStep, FateOf, Pending, Due, Sits, ValidChunks, ValidLast;
    FateIsStep(cs, place, todo, last, BUF_LEN, limit);
    next := ChunkStep(cs, Pending(place, todo, last), limit, false).next;
  }

  lemma NulFreeJoin(data: string, cr: bool, rest: string)
    requires '\0' !in data && '\0' !in rest
    ensures '\0' !in (if cr then data + "\r" else data) + rest
  {
  }

  lemma {:induction false} ToldIsNulFree(
      cs: ChunkState, place: Place, todo: seq<Chunk>, last: Last, ready: nat, arrivals: seq<nat>)
    requires ValidChunks(todo, BUF_LEN) && ValidLast(last, BUF_LEN) && Sits(cs, place)
    requires ready <= |Pending(place, todo, last)| && '\0' !in Due(place, todo)
    ensures '\0' !in Told(place, todo, last, ready, arrivals, BUF_LEN).payload
    decreases |arrivals|
  {
    hide Told, CourseOf, FateOf, Pending, Due, Sits, ValidChunks, ValidLast;
    if arrivals == [] {
      NothingArrives(place, todo, last, ready, BUF_LEN);
    } else {
      var now := Min(ready + arrivals[0], |Pending(place, todo, last)|);
      var f := FateOf(place, todo, last, Min(now, BUF_LEN));
      var next := GoesKeepsDue(cs, place, todo, last, Min(now, BUF_LEN));
      CourseUnfolds(place, todo, last, ready, arrivals, BUF_LEN, f);
      match f {
        case Goes(_, _, _, _, _) =>
          NulFreeIn(f.data, Due(f.place, f.todo));
          ToldIsNulFree(next, f.place, f.todo, last, now - f.taken, arrivals[1..]);
          NulFreeJoin(f.data, f.cr, Told(f.place, f.todo, last, now - f.taken, arrivals[1..], BUF_LEN).payload);
        case Completes =>
        case Strays => AstrayIsNothing(place, todo, last, ready, arrivals);
      }
    }
  }

  lemma AstrayIsNothing(place: Place, todo: seq<Chunk>, last: Last, ready: nat, arrivals: seq<nat>)
    requires ready <= |Pending(place, todo, last)| && arrivals != []
    requires FateOf(place, todo, last, Min(Min(ready + arrivals[0], |Pending(place, todo, last)|), BUF_LEN)) == Strays
    ensures Told(place, todo, last, ready, arrivals, BUF_LEN).payload == ""
  {
    hide FateOf, Pending;
  }

  /** What the framing tells of a chunked body that the supply is left for. */
  function BodyCourse(f: Framing, t: Supply): (c: Course)
    requires f.ByChunks?
  {
    CourseOf(AtSize, f.chunks, f.last, Min(t.ready, |Wire(f.chunks, f.last)|), t.arrivals, BUF_LEN)
  }

  lemma ChunkedBodyBegins(m: Message, v: Reader, t: Supply)
    requires ValidMessage(m) && m.framing.ByChunks? && BeforeBody(m, v) && Supplied(v, t)
    ensures InChunkedBody(v) && Sits(v.chunkState, AtSize) && v.inbound == Pending(AtSize, m.framing.chunks, m.framing.last)
    ensures v.ready == Min(t.ready, |Wire(m.framing.chunks, m.framing.last)|) && v.payload == "" && !v.noContent
    ensures v.httpCode == Value(m.code, 10)
    ensures var f := m.framing; ValidChunks(f.chunks, BUF_LEN) && ValidLast(f.last, BUF_LEN)
    ensures var due := Due(AtSize, m.framing.chunks); due == Content(m.framing) && '\0' !in due && due != ""
  {
    hide PlainLine, Contains, Wire, Body, ValidChunks, ValidLast;
  }

  /** A chunked response whose head is told to be read, and whose body is told to be complete in
      time, without both a split CRLF and an early end: the call succeeds exactly if the arrivals of
      the body are timely. */
  lemma ChunkedResponseIsReadIff(m: Message, s: Supply, n: Net)
    requires ValidMessage(m) && m.framing.ByChunks?
    requires n.checks > 0 && Outlasts(n.(checks := n.checks - 1), s, |Full(m)|)
    requires AfterWholeHead(m, n.connected, s).Some?
    requires var c := BodyCourse(m.framing, AfterWholeHead(m, n.connected, s).value);
             c.end == AtEnd || (c.end == Early && c.splits == 0)
    ensures Succeeds(m, Handled(Fresh(Full(m), Min(s.ready, |Full(m)|)), n)) <==>
            BodyCourse(m.framing, AfterWholeHead(m, n.connected, s).value) == Course(AtEnd, 0)
  {
    hide ValidMessage, Full, Rounds, Waits, AfterWholeHead, BeforeBody, Wire, Body, Told, RunFeed, CourseOf, ValidChunks, ValidLast, Sits, Due, Content;
    var v := Fresh(Full(m), Min(s.ready, |Full(m)|));
    HandledWaits(v, n);
    var w, t, n' := WholeHeadIsRead(m, v, s, n.(checks := n.checks - 1));
    var f := m.framing;
    ChunkedBodyBegins(m, w, t);
    RunTakesCourse(w.chunkState, AtSize, f.chunks, f.last, w.ready, t.arrivals, BUF_LEN);
    RunIsExactIff(w.chunkState, AtSize, f.chunks, f.last, w.ready, t.arrivals, BUF_LEN);
    ToldIsNulFree(w.chunkState, AtSize, f.chunks, f.last, w.ready, t.arrivals);
    ChunkRounds(w, n');
    var r := RunFeed(w.chunkState, w.inbound, w.ready, t.arrivals, BUF_LEN);
    assert "" + r.payload == r.payload;
  }
}
