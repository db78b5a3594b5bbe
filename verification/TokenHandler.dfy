/** The reading loop of a token exchange, and what it hands on. */
module TokenHandler {
  import opened Text
  import opened HttpReader
  import opened ChunkFraming
  import opened TokenResponse
  import opened TokenMessage

  /** One round of the loop: a status line, a header line or a piece of payload. */
  function AfterTurn(v: Reader): (r: Reader)
    requires v.Ok()
    ensures r.Ok()
  {
    var a := AfterStatusLine(v);
    if v.chunkIdx + 1 <= 1 then a else if a.isHeader then AfterHeaderLine(a) else AfterPayload(a)
  }

  /** Whether the loop ends behind that round. */
  predicate Stops(v: Reader)
    requires v.Ok()
  {
    var r := AfterTurn(v);
    && v.chunkIdx + 1 > 1
    && if AfterStatusLine(v).isHeader then r.headerEnded && !r.chunked && r.contentLen == 0
       else if r.chunked then r.bufferAvailable < 0
       else r.bufferAvailable < 0 || r.payloadRead >= r.contentLen
  }

  ghost predicate Finished(m: Message, r: Reader) {
    r.payload == Payload(m.framing) && r.payload != "" && r.httpCode == Value(m.code, 10) && !r.noContent
  }

  lemma PayloadNotEmpty(m: Message)
    requires ValidMessage(m)
    ensures Payload(m.framing) != ""
  {
    hide Contains;
    if m.framing.ByChunks? {
      OutputLength(m.framing.chunks, BUF_LEN);
    }
  }

  lemma StillOnTrack(m: Message, phase: Phase, v: Reader)
    requires OnTrack(m, phase, v) && phase != AtStatus
    ensures AfterStatusLine(v) == v.(chunkIdx := v.chunkIdx + 1) && OnTrack(m, phase, AfterStatusLine(v))
  {
  }

  /** On a completely arrived message every round makes progress, and the loop ends exactly
      when the payload is the message's. */
  lemma TurnKeepsTrack(m: Message, phase: Phase, v: Reader) returns (next: Phase)
    requires ValidMessage(m) && OnTrack(m, phase, v)
    ensures if Stops(v) then Finished(m, AfterTurn(v))
            else OnTrack(m, next, AfterTurn(v)) && AfterTurn(v).ready == |AfterTurn(v).inbound| < |v.inbound|
  {
    hide ValidMessage, ContentLength, IsChunked, StatusCode, PieceStep, BodyOnTrack, Payload;
    next := phase;
    var a := AfterStatusLine(v);
    match phase
    case AtStatus =>
      StatusTurn(m, v);
      next := AtHeader(0);
    case AtHeader(k) =>
      StillOnTrack(m, phase, v);
      if k < |m.lines| {
        HeaderTurn(m, k, a);
        next := AtHeader(k + 1);
      } else {
        BlankLineTurn(m, a);
        next := AtBody;
      }
    case AtBody =>
      StillOnTrack(m, phase, v);
      BodyTurn(m, a);
  }

  lemma BodyTurn(m: Message, a: Reader)
    requires ValidMessage(m) && OnTrack(m, AtBody, a)
    ensures var r := AfterPayload(a);
            var stops := if r.chunked then r.bufferAvailable < 0 else r.bufferAvailable < 0 || r.payloadRead >= r.contentLen;
            if stops then Finished(m, r) else OnTrack(m, AtBody, r) && |r.inbound| < |a.inbound|
  {
    hide ValidMessage, PieceStep;
    PayloadNotEmpty(m);
    if m.framing.ByLength? {
      LengthTurn(m, a);
    } else {
      ChunkTurn(m, a);
    }
  }

  method Turn(x: Exchange) returns (stops: bool)
    requires x.client.Valid()
    modifies x, x.client
    ensures x.client.Valid() && x.View() == AfterTurn(old(x.View())) && stops == Stops(old(x.View()))
  {
    hide StatusCode, PieceStep, ContentLength, IsChunked;
    var first := x.ReadStatusLine();
    if first {
      return false;
    }
    if x.isHeader {
      var ended := x.ReadHeader();
      stops := ended && !x.isChunkedEnc && x.contentLen == 0;
    } else {
      x.ReadPayload();
      stops := (x.isChunkedEnc && x.bufferAvailable < 0) ||
               (!x.isChunkedEnc && (x.bufferAvailable < 0 || x.payloadRead >= x.contentLen));
    }
  }

  // ------------------------------------------------------------- the loop

  function Fed(v: Reader, n: nat): (r: Reader)
    ensures v.Ok() ==> r.Ok()
  {
    v.(ready := Min(v.ready + n, |v.inbound|))
  }

  /** How the loop ends: with an answer, or because the connection was lost. */
  datatype Outcome = Answered(view: Reader) | Lost(view: Reader)
  {
    predicate Ok() { Answered? && view.payload != "" && !view.noContent }

    function Code(): (code: int) { if Answered? then view.httpCode else -6 }
  }

  /** The end of the loop, which drops what has arrived behind a chunked body or a late one. */
  function Closed(v: Reader, late: bool): (r: Reader)
    requires v.Ok()
  {
    if late || v.chunked then v.(inbound := v.inbound[v.ready..], ready := 0) else v
  }

  function Rounds(v: Reader, n: Net): (o: Outcome)
    requires v.Ok()
    decreases n.checks
  {
    var a := Fed(v, Next(n.arrivals));
    if n.checks == 0 then Lost(a)
    else if Stops(a) then Answered(Closed(AfterTurn(a), false))
    else if n.polls == 0 then Answered(Closed(AfterTurn(a), true))
    else Rounds(AfterTurn(a), Net(n.polls - 1, n.checks - 1, n.connected, Later(n.arrivals)))
  }

  /** Waiting for the first byte. */
  function Waits(v: Reader, n: Net): (o: Outcome)
    requires v.Ok()
    decreases n.checks
  {
    if !n.connected || v.ready > 0 then Rounds(v, n)
    else
      var a := Fed(v, Next(n.arrivals));
      if n.checks == 0 then Lost(a) else Waits(a, n.(checks := n.checks - 1, arrivals := Later(n.arrivals)))
  }

  function Handled(v: Reader, n: Net): (o: Outcome)
    requires v.Ok()
  {
    if n.checks == 0 then Lost(v) else Waits(v, n.(checks := n.checks - 1))
  }

  /** Reads one response. `ok` is whether there is a payload to parse as JSON. For every
      valid message that has arrived completely before the call, and that the response time
      and the network outlast, the payload is the message's. */
  method HandleTokenResponse(x: Exchange, net: Network, ghost m: Message) returns (ok: bool, code: int)
    requires x.client.Valid() && x.View() == Fresh(x.client.inbound, x.client.ready)
    modifies x, x.client, net
    ensures x.client.Valid()
    ensures var o := Handled(old(x.View()), old(net.State())); x.View() == o.view && ok == o.Ok() && code == o.Code()
    ensures
      ValidMessage(m)
      && old(x.client.inbound) == Full(m) && old(x.client.ready) == |Full(m)|
      && old(net.polls) >= |Full(m)| && old(net.checks) > |Full(m)| + 1
      ==> ok && code == Value(m.code, 10) && x.payload == Payload(m.framing)
  {
    hide ValidMessage, Payload, Full, Waits, Rounds;
    ghost var start := x.View();
    if ValidMessage(m) && start == Fresh(Full(m), |Full(m)|) && net.polls >= |Full(m)| && net.checks > |Full(m)| + 1 {
      ArrivedResponseIsRead(m, net.State());
    }
    ok, code := false, -6;
    var up := net.Reconnect();
    if !up {
      return;
    }
    up := AwaitFirstByte(x, net);
    if !up {
      return;
    }
    up := ReadRounds(x, net);
    if !up {
      return;
    }
    code := x.httpCode;
    ok := |x.payload| > 0 && !x.noContent;
  }

  method AwaitFirstByte(x: Exchange, net: Network) returns (up: bool)
    requires x.client.Valid()
    modifies x.client`ready, net
    ensures x.client.Valid()
    ensures Waits(old(x.View()), old(net.State())) == if up then Rounds(x.View(), net.State()) else Lost(x.View())
  {
    hide Waits, Rounds;
    var available := x.client.Available();
    while net.connected && available == 0
      invariant x.client.Valid() && available == x.client.ready
      invariant Waits(x.View(), net.State()) == Waits(old(x.View()), old(net.State()))
      decreases net.checks
    {
      WaitsUnfolds(x.View(), net.State());
      net.Idle(x.client);
      up := net.Reconnect();
      if !up {
        return;
      }
      available := x.client.Available();
    }
    WaitsUnfolds(x.View(), net.State());
    up := true;
  }

  method ReadRounds(x: Exchange, net: Network) returns (up: bool)
    requires x.client.Valid()
    modifies x, x.client, net
    ensures x.client.Valid()
    ensures Rounds(old(x.View()), old(net.State())) == if up then Answered(x.View()) else Lost(x.View())
  {
    hide AfterTurn, Stops, Rounds;
    var complete := false;
    var available := x.client.Available();
    while available > 0 || !complete
      invariant x.client.Valid() && available == x.client.ready && !complete
      invariant Rounds(x.View(), net.State()) == Rounds(old(x.View()), old(net.State()))
      decreases net.checks
    {
      RoundsUnfolds(x.View(), net.State());
      net.Idle(x.client);
      up := net.Reconnect();
      if !up {
        return;
      }
      var stops := Turn(x);
      if stops {
        if x.isChunkedEnc {
          DropRest(x);
        }
        complete := true;
        break;
      }
      var late := net.IsResponseTimeout();
      if late {
        DropRest(x);
        complete := true;
        break;
      }
      available := x.client.Available();
    }
    if x.isChunkedEnc {
      DropRest(x);
    }
    up := true;
  }

  method DropRest(x: Exchange)
    requires x.client.Valid()
    modifies x.client
    ensures x.client.Valid() && x.View() == old(x.View()).(inbound := old(x.View()).inbound[old(x.client.ready)..], ready := 0)
  {
    x.client.Flush();
  }

  lemma RoundsUnfolds(v: Reader, n: Net)
    requires v.Ok()
    ensures var a := Fed(v, Next(n.arrivals));
            && (n.checks == 0 ==> Rounds(v, n) == Lost(a))
            && (n.checks > 0 && Stops(a) ==> Rounds(v, n) == Answered(Closed(AfterTurn(a), false)))
            && (n.checks > 0 && !Stops(a) && n.polls == 0 ==> Rounds(v, n) == Answered(Closed(AfterTurn(a), true)))
            && (n.checks > 0 && !Stops(a) && n.polls > 0 ==>
                  Rounds(v, n) == Rounds(AfterTurn(a), Net(n.polls - 1, n.checks - 1, n.connected, Later(n.arrivals))))
  {
    hide AfterTurn, Stops, Closed;
  }

  lemma WaitsUnfolds(v: Reader, n: Net)
    requires v.Ok()
    ensures var a := Fed(v, Next(n.arrivals));
            && (!n.connected || v.ready > 0 ==> Waits(v, n) == Rounds(v, n))
            && (n.connected && v.ready == 0 ==>
                  Waits(v, n) == if n.checks == 0 then Lost(a) else Waits(a, n.(checks := n.checks - 1, arrivals := Later(n.arrivals))))
  {
    hide Rounds;
  }

  /** A header that announces neither a length nor chunks ends the call at its blank line, without a
      payload; and a status of no content never has one. */
  lemma NoBodyIsNoAnswer(v: Reader, n: Net)
    requires v.Ok() && v.chunkIdx >= 1 && v.isHeader && v.payload == "" && !v.chunked && v.contentLen == 0 && n.checks > 0
    requires var a := Fed(v, Next(n.arrivals)); EndsHeader(a.inbound[..a.Line()])
    ensures v.httpCode != -1 && ContentLength(v.header, 0) == 0 && !IsChunked(v.header) ==>
              Rounds(v, n).Answered? && Rounds(v, n).view.payload == "" && Rounds(v, n).Code() == v.httpCode && !Rounds(v, n).Ok()
    ensures v.httpCode == NO_CONTENT ==> AfterTurn(Fed(v, Next(n.arrivals))).noContent
  {
    hide CString, LineLen, ContentLength, IsChunked, EndsHeader, Rounds;
    RoundsUnfolds(v, n);
  }

  /** The response time ends the call with the round at hand, and drops what has arrived but was not
      read; without a connection there is no answer. */
  lemma TimeIsUp(v: Reader, n: Net)
    requires v.Ok()
    ensures n.checks == 0 ==> !Rounds(v, n).Ok()
    ensures n.checks > 0 && n.polls == 0 ==>
              var w := AfterTurn(Fed(v, Next(n.arrivals)));
              && Rounds(v, n).Answered? && Rounds(v, n).view.payload == w.payload && Rounds(v, n).Code() == w.httpCode
              && (!Stops(Fed(v, Next(n.arrivals))) ==> Rounds(v, n).view.ready == 0)
  {
    hide AfterTurn, Stops;
  }

  /** Nothing that has arrived behind a chunked body is left for the next request. */
  lemma {:induction false} ChunkedIsDrained(v: Reader, n: Net)
    requires v.Ok()
    ensures Rounds(v, n).Answered? && Rounds(v, n).view.chunked ==> Rounds(v, n).view.ready == 0
    decreases n.checks
  {
    hide AfterTurn, Stops, Rounds;
    RoundsUnfolds(v, n);
    var a := Fed(v, Next(n.arrivals));
    if n.checks > 0 && n.polls > 0 && !Stops(a) {
      ChunkedIsDrained(AfterTurn(a), Net(n.polls - 1, n.checks - 1, n.connected, Later(n.arrivals)));
    }
  }

  lemma {:induction false} RoundsOnTrack(m: Message, phase: Phase, v: Reader, n: Net)
    requires ValidMessage(m) && OnTrack(m, phase, v) && n.polls >= v.ready && n.checks > v.ready
    ensures Rounds(v, n).Answered? && Finished(m, Rounds(v, n).view)
    decreases n.checks
  {
    hide ValidMessage, OnTrack, AfterTurn, Stops, Payload;
    AllReady(m, phase, v);
    assert Fed(v, Next(n.arrivals)) == v;
    var next := TurnKeepsTrack(m, phase, v);
    RoundsUnfolds(v, n);
    if !Stops(v) {
      RoundsOnTrack(m, next, AfterTurn(v), Net(n.polls - 1, n.checks - 1, n.connected, Later(n.arrivals)));
    }
  }

  lemma AllReady(m: Message, phase: Phase, v: Reader)
    requires OnTrack(m, phase, v)
    ensures v.ready == |v.inbound|
  {
  }

  lemma ArrivedResponseIsRead(m: Message, n: Net)
    requires ValidMessage(m) && n.polls >= |Full(m)| && n.checks > |Full(m)| + 1
    ensures var o := Handled(Fresh(Full(m), |Full(m)|), n);
            o.Ok() && o.Code() == Value(m.code, 10) && o.view.payload == Payload(m.framing)
  {
    hide ValidMessage, OnTrack, Rounds, Payload;
    FullNotEmpty(m);
    StartsOnTrack(m);
    RoundsOnTrack(m, AtStatus, Fresh(Full(m), |Full(m)|), n.(checks := n.checks - 1));
  }

  lemma FullNotEmpty(m: Message)
    ensures |Full(m)| > 0
  {
  }

  lemma StartsOnTrack(m: Message)
    ensures OnTrack(m, AtStatus, Fresh(Full(m), |Full(m)|))
  {
  }
}
