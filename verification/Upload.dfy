/** The send path of an upload, from the payload through the pieces of each layer down to a
    socket that takes what it likes, and the progress it reports on the way. */
module Upload {

  const SEND_FAILED := -2
  const NOT_INITIALIZED := -10
  const NOT_CONNECTED := -3
  const REFUSED := -1

  // ---------------------------------------------------------- the socket loop

  /** What one round finds: `select` fails or reports the socket not writable, or `send` is told to
      try again, fails for good, or takes up to `n` bytes. */
  datatype Answer = SelectFailed | NotWritable | Busy | Broken | Takes(n: nat)

  function Min(a: nat, b: nat): (m: nat) { if a < b then a else b }

  /** `accepted` is what the socket has taken; round `i` of its life is answered by `answers(i)`, and
      `at` rounds are over. */
  class Socket {
    const answers: nat -> Answer
    var at: nat
    var accepted: seq<bv8>
    var open: bool

    constructor (answers: nat -> Answer)
      ensures this.answers == answers && at == 0 && accepted == [] && open
    {
      this.answers, at, accepted, open := answers, 0, [], true;
    }

    method Select() returns (failed: bool, writable: bool)
      modifies this`at
      ensures at == old(at) + 1
      ensures failed == answers(old(at)).SelectFailed?
      ensures writable == !(answers(old(at)).SelectFailed? || answers(old(at)).NotWritable?)
    {
      failed := answers(at).SelectFailed?;
      writable := !failed && !answers(at).NotWritable?;
      at := at + 1;
    }

    /** A non-blocking `send` in the round that has begun. */
    method Send(data: seq<bv8>) returns (res: int, again: bool)
      requires at > 0 && (answers(at - 1).Busy? || answers(at - 1).Broken? || answers(at - 1).Takes?)
      modifies this`accepted
      ensures again <==> answers(at - 1).Busy?
      ensures res == if answers(at - 1).Takes? then Min(answers(at - 1).n, |data|) else -1
      ensures accepted == old(accepted) + (if res > 0 then data[..res] else [])
    {
      var answer := answers(at - 1);
      again := answer.Busy?;
      if !answer.Takes? {
        return -1, again;
      }
      res := Min(answer.n, |data|);
      accepted := accepted + data[..res];
    }
  }

  // What the answers from round `from` on mean, told without the loop.

  predicate IsIdle(a: Answer) { a == NotWritable || a == Busy || a == Takes(0) }

  predicate IsFatal(a: Answer) { a == SelectFailed || a == Broken }

  /** What the rounds from `from` up to `end` could take. */
  function Offered(answers: nat -> Answer, from: nat, end: nat): (n: nat)
    decreases end
  {
    if end <= from then 0
    else Offered(answers, from, end - 1) + (if answers(end - 1).Takes? then answers(end - 1).n else 0)
  }

  /** Ten rounds in a row without progress. */
  predicate TenIdle(answers: nat -> Answer, from: nat, end: nat) {
    end >= from + 10 && forall i: nat | end - 10 <= i < end :: IsIdle(answers(i))
  }

  predicate GivesUp(answers: nat -> Answer, from: nat, end: nat) {
    end > from && (IsFatal(answers(end - 1)) || TenIdle(answers, from, end))
  }

  predicate Stops(answers: nat -> Answer, from: nat, end: nat, size: nat) {
    end > from && (Offered(answers, from, end) >= size || GivesUp(answers, from, end))
  }

  /** Round `end` is the first with a reason to stop behind it. */
  ghost predicate FirstStop(answers: nat -> Answer, from: nat, end: nat, size: nat) {
    Stops(answers, from, end, size) && forall j | from <= j < end :: !Stops(answers, from, j, size)
  }

  /** The idle rounds right before `end`. */
  function Idle(answers: nat -> Answer, from: nat, end: nat): (n: nat)
    ensures from <= end ==> from + n <= end
    ensures forall i: nat | end - n <= i < end :: IsIdle(answers(i))
    ensures from + n < end ==> !IsIdle(answers(end - n - 1))
    decreases end
  {
    if end > from && IsIdle(answers(end - 1)) then 1 + Idle(answers, from, end - 1) else 0
  }

  lemma TenIdleIff(answers: nat -> Answer, from: nat, end: nat)
    requires from <= end
    ensures TenIdle(answers, from, end) <==> Idle(answers, from, end) >= 10
  {
    var n := Idle(answers, from, end);
    if n < 10 && end >= from + 10 {
      assert !IsIdle(answers(end - n - 1));
    }
  }

  lemma PartSent(a: seq<bv8>, buf: seq<bv8>, sent: nat, k: nat)
    requires sent + k <= |buf|
    ensures buf[sent..][k..] == buf[sent + k..]
    ensures a + buf[..sent] + buf[sent..][..k] == a + buf[..sent + k]
  {
  }

  /** The loop is under way, with `retry` rounds left without progress. */
  ghost predicate Going(answers: nat -> Answer, from: nat, at: nat, size: nat, retry: int) {
    && from <= at && Offered(answers, from, at) < size && 0 < retry == 10 - Idle(answers, from, at)
    && forall j | from <= j <= at :: !Stops(answers, from, j, size)
  }

  lemma NextRound(answers: nat -> Answer, from: nat, at: nat, size: nat, retry: int)
    requires Going(answers, from, at, size, retry)
    ensures var a := answers(at);
            && Offered(answers, from, at + 1) == Offered(answers, from, at) + (if a.Takes? then a.n else 0)
            && (Offered(answers, from, at + 1) >= size || IsFatal(a) || (IsIdle(a) && retry == 1) ==>
                  FirstStop(answers, from, at + 1, size))
            && (!IsFatal(a) && IsIdle(a) && retry > 1 ==> Going(answers, from, at + 1, size, retry - 1))
            && (a.Takes? && a.n > 0 && Offered(answers, from, at + 1) < size ==> Going(answers, from, at + 1, size, 10))
  {
    TenIdleIff(answers, from, at + 1);
  }

  /** One round: `select`, and `send` if the socket is writable. */
  method Round(s: Socket, data: seq<bv8>) returns (failed: bool, res: int, again: bool)
    modifies s`at, s`accepted
    ensures s.at == old(s.at) + 1 && (failed <==> s.answers(old(s.at)) == SelectFailed)
    ensures var a := s.answers(old(s.at));
            && res == (if a.Takes? then Min(a.n, |data|) else if a == Busy || a == Broken then -1 else 0)
            && (again <==> a == Busy)
    ensures s.accepted == old(s.accepted) + data[..if res > 0 then res else 0]
  {
    var writable;
    res, again := 0, false;
    failed, writable := s.Select();
    assert data[..0] == [] && s.accepted + [] == s.accepted;
    if writable {
      res, again := s.Send(data);
    }
  }

  /** Partial sends with a budget of ten idle rounds: the loop ends after the first round that gives
      a reason to, be it that everything has been taken, an error, or the tenth idle round in a
      row. What the socket has accepted by then is a prefix of the input, and that is what is
      reported, except that a failed `select` reports nothing; a hard error closes the socket. */
  method TcpWrite(s: Socket, buf: seq<bv8>) returns (n: nat)
    modifies s
    ensures !old(s.open) || buf == [] ==> n == 0 && s.at == old(s.at) && s.accepted == old(s.accepted) && s.open == old(s.open)
    ensures old(s.open) && buf != [] ==>
              && s.at > old(s.at) && FirstStop(s.answers, old(s.at), s.at, |buf|)
              && s.open == (s.answers(s.at - 1) != Broken)
              && var sent := Min(|buf|, Offered(s.answers, old(s.at), s.at));
                 s.accepted == old(s.accepted) + buf[..sent] && n == if s.answers(s.at - 1) == SelectFailed then 0 else sent
  {
    hide Going, FirstStop, Offered;
    n := 0;
    assert buf[..0] == [] && s.accepted + [] == s.accepted;
    if !s.open || |buf| == 0 {
      return;
    }
    NothingYet(s.answers, s.at, |buf|);
    var retry, sent, rest := 10, 0, buf;
    while retry > 0
      invariant 0 <= retry <= 10 && s.at >= old(s.at) && sent == Min(|buf|, Offered(s.answers, old(s.at), s.at))
      invariant s.accepted == old(s.accepted) + buf[..sent]
      invariant retry > 0 ==> sent < |buf| && rest == buf[sent..] && s.open && Going(s.answers, old(s.at), s.at, |buf|, retry)
      invariant retry == 0 ==> s.at > old(s.at) && FirstStop(s.answers, old(s.at), s.at, |buf|)
      invariant retry == 0 ==> s.answers(s.at - 1) != SelectFailed && s.open == (s.answers(s.at - 1) != Broken)
      decreases |buf| - sent, retry
    {
      NextRound(s.answers, old(s.at), s.at, |buf|, retry);
      retry := retry - 1;
      var failed, res, again := Round(s, rest);
      PartSent(old(s.accepted), buf, sent, if res > 0 then res else 0);
      if failed {
        return;
      }
      if res > 0 {
        sent := sent + res;
        if sent >= |buf| {
          retry := 0;
        } else {
          rest := rest[res..];
          retry := 10;
        }
      } else if res < 0 && !again {
        retry := 0;
        s.open := false;
      }
    }
    n := sent;
  }

  lemma NothingYet(answers: nat -> Answer, from: nat, size: nat)
    requires size > 0
    ensures Offered(answers, from, from) == 0 && Going(answers, from, from, size, 10)
  {
  }

  /** The last round took something. */
  predicate WentOn(answers: nat -> Answer, end: nat) {
    end > 0 && !IsIdle(answers(end - 1)) && !IsFatal(answers(end - 1))
  }

  lemma WentOnIsNoEnd(answers: nat -> Answer, from: nat, end: nat)
    ensures WentOn(answers, end) ==> !GivesUp(answers, from, end)
  {
  }

  lemma FurtherBack(answers: nat -> Answer, from: nat, start: nat, end: nat)
    requires from <= start
    ensures GivesUp(answers, start, end) ==> GivesUp(answers, from, end)
  {
  }

  /** One of ten rounds takes something. */
  ghost predicate Moves(answers: nat -> Answer, from: nat) { exists j: nat | from <= j < from + 10 :: !IsIdle(answers(j)) }

  /** A socket on which no round fails, and which takes something in any ten rounds in a row, is
      never given up. */
  lemma WillingIsNotGivenUp(answers: nat -> Answer, from: nat, end: nat)
    requires forall i: nat | from <= i :: !IsFatal(answers(i))
    requires forall i: nat | from <= i :: Moves(answers, i)
    ensures !GivesUp(answers, from, end)
  {
    if end >= from + 10 { assert Moves(answers, end - 10); }
  }

  // ------------------------------------------------------------- piece by piece

  const PIECE: nat := 1024

  /** One piece, of an upload whose first round was `from`. */
  method SendPiece(s: Socket, piece: seq<bv8>, ghost from: nat) returns (ok: bool)
    requires s.open && piece != [] && from <= s.at
    modifies s
    ensures s.at > old(s.at) && (ok <==> !GivesUp(s.answers, from, s.at))
    ensures ok ==> s.accepted == old(s.accepted) + piece && s.open && WentOn(s.answers, s.at)
    ensures old(s.accepted) <= s.accepted <= old(s.accepted) + piece
  {
    hide FirstStop, Offered, GivesUp;
    var n := TcpWrite(s, piece);
    PieceEnds(s.answers, from, old(s.at), s.at, |piece|);
    ok := n == |piece|;
    assert piece[..|piece|] == piece;
  }

  /** The client's send: the data goes down in pieces, and the answer is its size or a negative
      code. What reaches the socket is sent unless the socket is given up. */
  method Write(s: Socket, data: seq<bv8>, initialized: bool, networkReady: bool, connects: bool) returns (ret: int)
    modifies s
    ensures var reached := initialized && data != [] && networkReady && (old(s.open) || connects);
            && (!reached ==> s.at == old(s.at) && s.accepted == old(s.accepted) && s.open == old(s.open))
            && (reached ==> s.at > old(s.at))
            && ret == (if !initialized then NOT_INITIALIZED else if data == [] then SEND_FAILED
                       else if !networkReady then NOT_CONNECTED else if !reached then REFUSED
                       else if GivesUp(s.answers, old(s.at), s.at) then SEND_FAILED else |data|)
    ensures ret >= 0 ==> s.accepted == old(s.accepted) + data && s.open && WentOn(s.answers, s.at)
    ensures old(s.accepted) <= s.accepted <= old(s.accepted) + data
  {
    hide FirstStop, Offered, GivesUp;
    assert s.accepted + data[..0] == s.accepted;
    if !initialized {
      return NOT_INITIALIZED;
    }
    if |data| == 0 {
      return SEND_FAILED;
    }
    if !networkReady {
      return NOT_CONNECTED;
    }
    if !s.open {
      if !connects {
        return REFUSED;
      }
      s.open := true;
    }
    var toSend, sent := PIECE, 0;
    while sent < |data|
      invariant 0 <= sent <= |data| && 0 < toSend && s.open
      invariant s.accepted == old(s.accepted) + data[..sent]
      invariant sent > 0 ==> s.at > old(s.at) && WentOn(s.answers, s.at)
      invariant s.at >= old(s.at)
    {
      if sent + toSend > |data| {
        toSend := |data| - sent;
      }
      var ok := SendPiece(s, data[sent..sent + toSend], old(s.at));
      PiecePrefix(old(s.accepted), data, sent, toSend);
      if !ok {
        return SEND_FAILED;
      }
      sent := sent + toSend;
    }
    WentOnIsNoEnd(s.answers, old(s.at), s.at);
    assert data[..sent] == data;
    ret := |data|;
  }

  lemma PieceEnds(answers: nat -> Answer, from: nat, start: nat, end: nat, size: nat)
    requires from <= start && size > 0 && FirstStop(answers, start, end, size)
    ensures var n := if answers(end - 1) == SelectFailed then 0 else Min(size, Offered(answers, start, end));
            (n == size <==> !GivesUp(answers, from, end)) && (n == size ==> WentOn(answers, end))
    ensures Offered(answers, start, end) >= size ==> answers(end - 1) != Broken
  {
    assert !Stops(answers, start, end - 1, size);
    FurtherBack(answers, from, start, end);
  }

  // ------------------------------------------------------------------ progress

  const INTERVAL := 2

  /** A report and the number of bytes accepted when it was made. */
  datatype Report = Report(percent: int, sent: nat)

  function Percent(sent: nat, size: nat): (p: nat)
    requires size > 0
  {
    sent * 100 / size
  }

  /** Reports start at 0, rise in steps of at least the interval, except into 100, and tell
      the truth. */
  predicate Rising(reports: seq<Report>, size: nat)
    requires size > 0
  {
    && (reports != [] ==> reports[0].percent == 0)
    && (forall i | 0 <= i < |reports| :: reports[i].percent == Percent(reports[i].sent, size) <= 100)
    && (forall i | 0 < i < |reports| ::
          reports[i - 1].percent + INTERVAL <= reports[i].percent
          || (reports[i].percent == 100 && reports[i - 1].percent < 100))
  }

  lemma PercentMonotone(a: nat, b: nat, size: nat)
    requires a <= b <= size && size > 0
    ensures Percent(a, size) <= Percent(b, size) <= 100
    ensures Percent(size, size) == 100 && Percent(0, size) == 0
  {
    DivMonotone(a * 100, b * 100, size);
    DivMonotone(b * 100, size * 100, size);
    DivExact(100, size);
  }

  lemma DivMonotone(x: nat, y: nat, m: nat)
    requires x <= y && m > 0
    ensures x / m <= y / m
  {
    var q, r := x / m, y / m;
    assert q > r ==> (q - r - 1) * m >= 0;
    assert (q - r - 1) * m == q * m - r * m - m;
  }

  lemma DivExact(q: nat, m: nat)
    requires m > 0
    ensures (m * q) / m == q
  {
    var d, r := (m * q) / m, (m * q) % m;
    assert (q - d) * m == r;
    assert (q > d ==> (q - d - 1) * m >= 0) && (q < d ==> (d - q - 1) * m >= 0);
    assert (q - d - 1) * m == (q - d) * m - m && (d - q - 1) * m == (d - q) * m - m;
  }

  /** Before a report, the k-th percentage is at least twice its index. */
  lemma {:induction false} RisingIsFast(reports: seq<Report>, size: nat, k: nat)
    requires size > 0 && Rising(reports, size) && k < |reports| && reports[k].percent < 100
    ensures reports[k].percent >= 2 * k
  {
    if k > 0 {
      RisingIsFast(reports, size, k - 1);
    }
  }

  /** So there are never more than fifty-one reports. */
  lemma FewReports(reports: seq<Report>, size: nat)
    requires size > 0 && Rising(reports, size)
    ensures |reports| <= 51
  {
    if |reports| > 51 {
      assert reports[50].percent < 100 by {
        assert reports[51 - 1].percent < reports[51].percent;
      }
      RisingIsFast(reports, size, 50);
    }
  }

  class Request {
    const size: nat
    var progress: int
    var reports: seq<Report>

    constructor (size: nat)
      ensures this.size == size && progress == -1 && reports == []
    {
      this.size, progress, reports := size, -1, [];
    }

    ghost predicate Valid()
      reads this
    {
      && (size == 0 ==> reports == [])
      && (size > 0 ==> Rising(reports, size))
      && progress == if reports == [] then -1 else reports[|reports| - 1].percent
    }

    method ReportUploadProgress(readBytes: nat)
      requires Valid()
      requires size > 0 ==> readBytes <= size && (reports == [] ==> readBytes == 0)
      requires reports != [] ==> reports[|reports| - 1].sent <= readBytes
      modifies this
      ensures Valid() && old(reports) <= reports && |reports| <= |old(reports)| + 1
      ensures size > 0 ==> reports != [] && reports[|reports| - 1].sent <= readBytes
      ensures size > 0 && readBytes == size ==> reports[|reports| - 1].percent == 100
      ensures size > 0 ==> Percent(readBytes, size) < reports[|reports| - 1].percent + INTERVAL
      ensures reports != old(reports) ==> reports == old(reports) + [Report(Percent(readBytes, size), readBytes)]
    {
      if size == 0 {
        return;
      }
      var p := Percent(readBytes, size);
      PercentMonotone(0, readBytes, size);
      if reports != [] {
        PercentMonotone(reports[|reports| - 1].sent, readBytes, size);
      }
      if progress != p && (p == 0 || p == 100 || progress + INTERVAL <= p) {
        progress := p;
        reports := reports + [Report(p, readBytes)];
      }
    }
  }

  const CHUNK: nat := 4096

  /** A report made by then is less than the interval behind what has been sent. */
  ghost predicate Follows(reports: seq<Report>, size: nat, sent: nat)
    requires size > 0
  {
    exists i :: 0 <= i < |reports| && reports[i].sent <= sent && Percent(sent, size) < reports[i].percent + INTERVAL
  }

  lemma FollowsStill(reports: seq<Report>, more: seq<Report>, size: nat, sent: nat)
    requires size > 0 && Follows(reports, size, sent) && reports <= more
    ensures Follows(more, size, sent)
  {
    hide Percent;
    var i :| 0 <= i < |reports| && reports[i].sent <= sent && Percent(sent, size) < reports[i].percent + INTERVAL;
    assert more[i] == reports[i];
  }

  /** Every chunk border before `sent` has been followed. */
  ghost predicate Followed(reports: seq<Report>, size: nat, sent: nat)
    requires size > 0
  {
    forall k: nat | k * CHUNK < sent :: Follows(reports, size, k * CHUNK)
  }

  /** The report at a chunk border, or at the end. */
  method ReportChunk(req: Request, sent: nat)
    requires req.Valid() && (req.size > 0 ==> sent <= req.size && (req.reports == [] ==> sent == 0))
    requires req.size > 0 && req.reports != [] ==> req.reports[|req.reports| - 1].sent <= sent
    requires req.size > 0 ==> Followed(req.reports, req.size, sent)
    modifies req
    ensures req.Valid() && (req.size == 0 ==> req.reports == old(req.reports))
    ensures req.size > 0 ==> req.reports != [] && req.reports[|req.reports| - 1].sent <= sent
    ensures req.size > 0 && sent == req.size ==> req.reports[|req.reports| - 1].percent == 100
    ensures req.size > 0 ==> Followed(req.reports, req.size, sent + 1)
  {
    hide Rising, Percent, Request.Valid;
    NoReports(req);
    req.ReportUploadProgress(sent);
    NoReports(req);
    if req.size > 0 {
      LastFollows(req.reports, req.size, sent);
      forall k: nat | k * CHUNK < sent + 1
        ensures Follows(req.reports, req.size, k * CHUNK)
      {
        if k * CHUNK < sent {
          FollowsStill(old(req.reports), req.reports, req.size, k * CHUNK);
        }
      }
    }
  }

  lemma NoReports(req: Request)
    requires req.Valid()
    ensures req.size == 0 ==> req.reports == []
  {
  }

  lemma LastFollows(reports: seq<Report>, size: nat, sent: nat)
    requires size > 0 && reports != [] && reports[|reports| - 1].sent <= sent
    requires Percent(sent, size) < reports[|reports| - 1].percent + INTERVAL
    ensures Follows(reports, size, sent)
  {
    hide Percent;
  }

  lemma NoneFollowed(reports: seq<Report>, size: nat)
    requires size > 0
    ensures Followed(reports, size, 0)
  {
  }

  /** There is no border between two borders. */
  lemma NextBorder(reports: seq<Report>, size: nat, sent: nat, next: nat)
    requires size > 0 && sent % CHUNK == 0 && next <= sent + CHUNK && Followed(reports, size, sent + 1)
    ensures Followed(reports, size, next)
  {
    forall k: nat | k * CHUNK < next
      ensures Follows(reports, size, k * CHUNK)
    {
      var q := sent / CHUNK;
      assert sent == CHUNK * q && k <= q;
    }
  }

  /** Sends a payload with progress reports; `size` is its length, or 0 without a callback. What
      reaches the socket is sent unless the socket is given up. */
  method TcpSend(s: Socket, data: seq<bv8>, req: Request, initialized: bool, networkReady: bool, connects: bool) returns (ret: int)
    requires req.Valid() && req.reports == [] && (req.size == |data| || req.size == 0)
    modifies s, req
    ensures req.Valid() && |req.reports| <= 51
    ensures ret >= 0 <==> data == [] || (initialized && networkReady && (old(s.open) || connects) && !GivesUp(s.answers, old(s.at), s.at))
    ensures ret >= 0 ==> s.accepted == old(s.accepted) + data
    ensures old(s.accepted) <= s.accepted <= old(s.accepted) + data
    ensures ret >= 0 && req.size > 0 ==>
              && req.reports != [] && req.reports[0].percent == 0
              && req.reports[|req.reports| - 1] == Report(100, req.size)
              && Followed(req.reports, req.size, |data| + 1)
    ensures ret > 0 <==> ret >= 0 && data != []
  {
    hide Rising, Percent, Request.Valid, GivesUp, Followed;
    var chunkSize, sent := CHUNK, 0;
    ret := 0;
    assert data[..0] == [] && s.accepted + [] == s.accepted;
    if req.size > 0 { NoneFollowed(req.reports, req.size); }
    while sent < |data|
      invariant 0 <= sent <= |data| && 0 < chunkSize && ret >= 0
      invariant ret > 0 <==> sent > 0
      invariant s.accepted == old(s.accepted) + data[..sent]
      invariant s.at >= old(s.at) && (sent == 0 ==> s.at == old(s.at) && s.open == old(s.open))
      invariant sent > 0 ==> s.open && initialized && networkReady && (old(s.open) || connects) && WentOn(s.answers, s.at)
      invariant req.Valid()
      invariant req.reports == [] ==> sent == 0 || req.size == 0
      invariant req.reports != [] ==> req.reports[|req.reports| - 1].sent < |data| && req.reports[|req.reports| - 1].sent <= sent
      invariant req.size > 0 ==> Followed(req.reports, req.size, sent)
      invariant sent == |data| || (sent % CHUNK == 0 && chunkSize == CHUNK)
    {
      if sent + chunkSize > |data| {
        chunkSize := |data| - sent;
      }
      ReportChunk(req, sent);
      ghost var start := s.at;
      ret := Write(s, data[sent..sent + chunkSize], initialized, networkReady, connects);
      PiecePrefix(old(s.accepted), data, sent, chunkSize);
      FurtherBack(s.answers, old(s.at), start, s.at);
      if req.size > 0 { NextBorder(req.reports, req.size, sent, sent + chunkSize); }
      if ret < 0 {
        Few(req);
        return;
      }
      sent := sent + chunkSize;
    }
    assert data[..sent] == data;
    WentOnIsNoEnd(s.answers, old(s.at), s.at);
    ReportChunk(req, sent);
    if req.size > 0 {
      LastReport(req);
    }
    Few(req);
  }

  lemma PiecePrefix(a: seq<bv8>, data: seq<bv8>, sent: nat, k: nat)
    requires sent + k <= |data|
    ensures a + data[..sent] + data[sent..sent + k] == a + data[..sent + k]
    ensures a + data[..sent + k] <= a + data && a <= a + data[..sent]
  {
  }

  lemma Few(req: Request)
    requires req.Valid()
    ensures |req.reports| <= 51
  {
    if req.size > 0 {
      FewReports(req.reports, req.size);
    }
  }

  /** 100 is only ever true of everything. */
  lemma LastReport(req: Request)
    requires req.Valid() && req.size > 0 && req.reports != []
    requires req.reports[|req.reports| - 1].percent == 100 && req.reports[|req.reports| - 1].sent <= req.size
    ensures req.reports[0].percent == 0 && req.reports[|req.reports| - 1] == Report(100, req.size)
  {
  }
}
