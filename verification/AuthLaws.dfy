/** What the invariant of the token engine means for the JWT it sends, and runs in which it goes
    wrong. */
module AuthLaws {
  import opened Auth
  import opened AuthProofs
  import Base64Spec

  // ------------------------------------------------------ the JWT that is sent

  /** The places of the dots of a signed JWT: its three segments are not empty, made of URL-safe
      characters, and separated by the only two dots. */
  lemma SignedTextHasTwoDots(h: Json, l: Json, s: Signature)
    ensures var i := |Base64Spec.UrlEncode(h)|; var j := i + 1 + |Base64Spec.UrlEncode(l)|;
            && 0 < i && i + 1 < j && j + 1 < |SignedText(h, l, s)|
            && forall k | 0 <= k < |SignedText(h, l, s)| ::
                 if k == i || k == j then SignedText(h, l, s)[k] == DOT else Base64Spec.IsUrlChar(SignedText(h, l, s)[k])
  {
    hide Base64Spec.UrlEncode;
    Base64Spec.UrlEncodeFits(h);
    Base64Spec.UrlEncodeFits(l);
    Base64Spec.UrlEncodeFits(s);
    Base64Spec.UrlEncodeIsClean(h);
    Base64Spec.UrlEncodeIsClean(l);
    Base64Spec.UrlEncodeIsClean(s);
  }

  lemma {:induction false} FindDotIsFirst(s: seq<bv8>, from: nat)
    requires from <= |s|
    ensures forall k | from <= k < FindDot(s, from) :: s[k] != DOT
    ensures FindDot(s, from) < |s| ==> s[FindDot(s, from)] == DOT
    decreases |s| - from
  {
    if from < |s| && s[from] != DOT {
      FindDotIsFirst(s, from + 1);
    }
  }

  lemma HasTwoDotsIff(s: seq<bv8>)
    ensures HasTwoDots(s) <==> exists i, j | 0 <= i < j < |s| :: s[i] == DOT && s[j] == DOT
  {
    var i := FindDot(s, 0);
    FindDotIsFirst(s, 0);
    if i < |s| {
      FindDotIsFirst(s, i + 1);
      var j := FindDot(s, i + 1);
      assert j < |s| ==> s[i] == DOT && s[j] == DOT;
    }
  }

  /** What waits to be exchanged would pass for a custom token exactly until the first answer. */
  lemma ExchangedTextIsCustomTokenIff(ops: seq<Op>)
    ensures var c := Run(FRESH, ops);
            c.step == Exchange ==> (HasTwoDots(c.jwt) <==> PhaseOf(c.history).Complete?)
  {
    hide SignedText, EncodedText, Act, HasTwoDots;
    PowerUpIsSound();
    RunIsSound(FRESH, ops);
    var c := Run(FRESH, ops);
    var p := PhaseOf(c.history);
    HasTwoDotsIff(c.jwt);
    if p.Complete? {
      SignedTextHasTwoDots(p.header, p.payload, p.signature);
      var i := |Base64Spec.UrlEncode(p.header)|;
      var j := i + 1 + |Base64Spec.UrlEncode(p.payload)|;
      var t := SignedText(p.header, p.payload, p.signature);
      assert t[i] == DOT && t[j] == DOT;
    }
  }

  ghost predicate IsCompleteJwt(text: seq<bv8>) {
    exists header: Json, payload: Json, signature: Signature :: text == SignedText(header, payload, signature)
  }

  /** A JWT that is only encoded ends in a dot, and one that was answered is empty. */
  lemma JwtIsCompleteIff(p: Phase)
    ensures IsCompleteJwt(JwtOf(p)) <==> p.Complete?
  {
    hide SignedText, EncodedText;
    if p.Complete? {
      assert JwtOf(p) == SignedText(p.header, p.payload, p.signature);
    } else {
      forall header: Json, payload: Json, signature: Signature
        ensures JwtOf(p) != SignedText(header, payload, signature)
      {
        SignedTextHasTwoDots(header, payload, signature);
        var t := SignedText(header, payload, signature);
        assert t[|t| - 1] != DOT;
        if p.Prepared? { EncodedTextEndsInDot(p.header, p.payload); }
      }
    }
  }

  lemma EncodedTextEndsInDot(header: Json, payload: Json)
    ensures var t := EncodedText(header, payload); t != [] && t[|t| - 1] == DOT
  {
  }

  predicate Recorded(h: History, e: Event) {
    h != Beginning && (h.event == e || Recorded(h.earlier, e))
  }

  /** A request for tokens carries the JWT unless the caller's own custom token takes its place or an
      OAuth 2.0 token is renewed; a custom token's renewal carries it like an exchange. */
  predicate CarriesOwnJwt(c: Core, refresh: bool) {
    !(c.tokenType == CustomToken && c.customSet) && !(refresh && c.tokenType == OAuth2)
  }

  lemma BodyIsJwtIff(c: Core, refresh: bool)
    requires TradesJwt(c.tokenType)
    ensures BodyOf(c, refresh).Jwt? <==> CarriesOwnJwt(c, refresh)
    ensures BodyOf(c, refresh).Jwt? ==> BodyOf(c, refresh).text == c.jwt
  {
  }

  lemma RequestIsRecorded(c: Core, refresh: bool, n: Net)
    requires TradesJwt(c.tokenType) && !RequestBlocked(c, refresh, n) && n.Connects()
    ensures Recorded(RequestTokens(c, refresh, n).c.history,
                     Start(if refresh then Renewing else Exchanging, true, true, BodyOf(c, refresh)))
  {
    hide BodyOf, HandleTaskError, AfterReply;
    var status := if refresh then OnRefresh else OnRequest;
    var e := Start(if refresh then Renewing else Exchanging, true, true, BodyOf(c, refresh));
    var c0 := c.(status := status, processing := true, message := false);
    SameBody(c, c0, refresh);
    var c1 := c0.Log(e);
    assert Recorded(c1.history, e);
    ClosingKeepsRecords(c1, ConnectionLost, n.text, e);
    ClosingKeepsRecords(c1, TimedOut(n.http), n.text, e);
    ReplyKeepsRecords(c1, n, e);
    ClosingKeepsRecords(AfterReply(c1, n), if n.ErrorCode() == 0 then Completed else ErrorUnnotified, n.text, e);
  }

  lemma SameBody(c: Core, d: Core, refresh: bool)
    requires d.tokenType == c.tokenType && d.customSet == c.customSet && d.jwt == c.jwt
    ensures BodyOf(d, refresh) == BodyOf(c, refresh)
  {
  }

  lemma ErrorKeepsRecords(c: Core, failed: bool, text: bool, e: Event)
    requires Recorded(c.history, e)
    ensures Recorded(SetTokenError(c, failed, text).history, e)
  {
  }

  lemma ClosingKeepsRecords(c: Core, code: TaskCode, text: bool, e: Event)
    requires Recorded(c.history, e)
    ensures Recorded(HandleTaskError(c, code, text).c.history, e)
  {
    hide SetTokenError;
    var c1 := c.(processing := false).Log(Closed);
    assert Recorded(c1.history, e);
    ErrorKeepsRecords(c1, true, text, e);
    ErrorKeepsRecords(c1.(message := false), true, text, e);
    ErrorKeepsRecords(c1.(message := text), true, text, e);
  }

  lemma ReplyKeepsRecords(c: Core, n: Net, e: Event)
    requires Recorded(c.history, e)
    ensures Recorded(AfterReply(c, n).history, e)
  {
  }

  /** After every run: the next exchange or renewal that carries the JWT carries a complete one
      exactly if it was signed after it was encoded last, and not answered since. */
  lemma CarriedJwtIsCompleteIff(ops: seq<Op>, refresh: bool, n: Net)
    ensures var c := Run(FRESH, ops);
            TradesJwt(c.tokenType) && !RequestBlocked(c, refresh, n) && n.Connects() && CarriesOwnJwt(c, refresh) ==>
              && Recorded(RequestTokens(c, refresh, n).c.history,
                          Start(if refresh then Renewing else Exchanging, true, true, Jwt(c.jwt)))
              && (IsCompleteJwt(c.jwt) <==> PhaseOf(c.history).Complete?)
  {
    hide Act, RequestTokens, BodyOf, IsCompleteJwt, JwtOf, Recorded;
    var c := Run(FRESH, ops);
    PowerUpIsSound();
    RunIsSound(FRESH, ops);
    JwtIsCompleteIff(PhaseOf(c.history));
    if TradesJwt(c.tokenType) && !RequestBlocked(c, refresh, n) && n.Connects() && CarriesOwnJwt(c, refresh) {
      BodyIsJwtIff(c, refresh);
      RequestIsRecorded(c, refresh, n);
    }
  }

  // ------------------------------------------------------- what goes wrong

  /** A turn in which a sign-in task that finds the flag set does nothing: the clock holds it up
      neither by ending the task nor by an error, and no look at a dead network clears the flag. */
  predicate Idle(r: Round, status: Status) {
    && (r.clockReady || !r.certificate || (r.clockReadyNow && !r.syncTimedOut))
    && (r.networkUp || (!r.callbackDue && status != OnRefresh))
  }

  lemma TurnIsIdleIff(c: Core, r: Round)
    requires c.processing && c.status != Ready && c.tokenType == IdToken
    ensures TaskRound(c, r) == Done(c, true) <==> Idle(r, c.status)
  {
    hide InitClient;
    if !Idle(r, c.status) {
      ActiveTurn(c, r);
    }
  }

  function Depth(h: History): (n: nat) { if h == Beginning then 0 else 1 + Depth(h.earlier) }

  lemma ErrorGrows(c: Core, failed: bool, text: bool)
    ensures Depth(SetTokenError(c, failed, text).history) >= Depth(c.history) + if c.message && failed then 0 else 1
  {
  }

  lemma ClosingGrows(c: Core, code: TaskCode, text: bool)
    ensures Depth(HandleTaskError(c, code, text).c.history) > Depth(c.history)
  {
    hide SetTokenError;
    var c1 := c.(processing := false).Log(Closed);
    ErrorGrows(c1, true, text);
    ErrorGrows(c1.(message := false), true, text);
    ErrorGrows(c1.(message := text), true, text);
  }

  lemma SignInGrows(c: Core, n: Net)
    ensures Depth(GetIdToken(c, false, n).c.history) >= Depth(c.history)
  {
    hide HandleTaskError;
    if !Requesting(c) {
      var c0 := c.(status := OnRequest, processing := true, message := false);
      ClosingGrows(c0, TimedOut(NOT_INITIALIZED), n.text);
      var c1 := c0.Log(Start(SigningIn, !c.processing, true, Other));
      ClosingGrows(c1, ConnectionLost, n.text);
      ClosingGrows(c1, TimedOut(n.http), n.text);
      var c2 := c1.(status := if n.errorField then Error else c1.status, message := n.serverText);
      ClosingGrows(c2, Completed, n.text);
      ClosingGrows(c2, TimedOut(n.http), n.text);
    }
  }

  lemma NetworkLookGrows(c: Core, r: Round)
    ensures Depth(AfterRequest(c, r).history) >= Depth(c.history)
    ensures !r.networkUp && (r.callbackDue || c.status == OnRefresh) ==> Depth(AfterRequest(c, r).history) > Depth(c.history)
  {
    hide SetTokenError, HandleTaskError;
    ErrorGrows(c.(message := false), true, r.text);
    ClosingGrows(CheckNetwork(c, r.networkUp, r.text), ConnectionLost, r.text);
  }

  lemma WaitGrows(c: Core, r: Round)
    ensures Depth(AwaitClock(c, r).c.history) >= Depth(c.history)
    ensures !r.clockReady && NeedsClock(c, r) && r.syncTimedOut ==> Depth(AwaitClock(c, r).c.history) > Depth(c.history)
  {
    hide SetTokenError;
    ErrorGrows(c.(message := false), true, r.text);
  }

  lemma TurnGrows(c: Core, r: Round)
    requires c.tokenType == IdToken
    ensures Depth(TaskRound(c, r).c.history) >= Depth(c.history)
  {
    hide AwaitClock, GetIdToken, AfterRequest;
    WaitGrows(c, r);
    SignInGrows(AwaitClock(c, r).c, r.net);
    NetworkLookGrows(GetIdToken(AwaitClock(c, r).c, false, r.net).c, r);
  }

  /** Any other turn ends the task or puts an event on record. */
  lemma ActiveTurn(c: Core, r: Round)
    requires c.processing && c.tokenType == IdToken && !Idle(r, c.status)
    ensures !TaskRound(c, r).ok || Depth(TaskRound(c, r).c.history) > Depth(c.history)
  {
    hide GetIdToken, AfterRequest, SetTokenError;
    WaitGrows(c, r);
    SignInGrows(AwaitClock(c, r).c, r.net);
    NetworkLookGrows(GetIdToken(AwaitClock(c, r).c, false, r.net).c, r);
  }

  lemma {:induction false} TaskGrows(c: Core, rounds: seq<Round>)
    requires c.tokenType == IdToken
    ensures Depth(TaskRun(c, rounds).history) >= Depth(c.history)
    decreases |rounds|
  {
    hide TaskRound;
    if c.status != Ready && rounds != [] {
      TurnGrows(c, rounds[0]);
      var d := TaskRound(c, rounds[0]);
      if d.ok { TaskGrows(d.c, rounds[1..]); }
    }
  }

  /** Once the flag is left set, a sign-in task goes on without ever doing anything exactly as
      long as its turns are idle. */
  lemma {:induction false} SignInNeverEndsIff(c: Core, rounds: seq<Round>)
    requires c.processing && c.status != Ready && c.tokenType == IdToken && c.taskRunning
    ensures TaskRun(c, rounds) == c <==> forall i | 0 <= i < |rounds| :: Idle(rounds[i], c.status)
    decreases |rounds|
  {
    hide TaskRound, Idle;
    if rounds != [] {
      var r := rounds[0];
      TurnIsIdleIff(c, r);
      if Idle(r, c.status) {
        SignInNeverEndsIff(c, rounds[1..]);
        assert forall i | 1 <= i < |rounds| :: rounds[i] == rounds[1..][i - 1];
      } else {
        ActiveTurn(c, r);
        var d := TaskRound(c, r);
        if d.ok { TaskGrows(d.c, rounds[1..]); }
      }
    }
  }

  /** A request lost with the network leaves the flag set. The next look at the dead network
      clears it again exactly if the request was a refresh. */
  lemma LostRequestHealsIff(c: Core, refresh: bool, n: Net, text: bool)
    requires TradesJwt(c.tokenType) && !RequestBlocked(c, refresh, n) && !n.reconnects
    ensures CheckNetwork(RequestTokens(c, refresh, n).c, false, text).processing <==> !refresh
    ensures !Requesting(c) && n.renewable ==> !CheckNetwork(RefreshToken(c, n).c, false, text).processing
    ensures !Requesting(c) ==> CheckNetwork(GetIdToken(c, false, n).c, false, text).processing
  {
    hide RequestTokens, RefreshToken, GetIdToken;
    var lost := RequestTokens(c, refresh, n).c;
    assert lost.status == (if refresh then OnRefresh else OnRequest) && lost.processing;
  }

  const ANSWERS: Net := Net(true, true, true, true, false, 0, 200, false, true, true, false)

  const REFUSES: Net := ANSWERS.(errorField := true, code := 400, http := 400)

  const DROPS: Net := ANSWERS.(reconnects := false)

  function SomeSignature(): (s: Signature) { seq(256, _ => 0) }

  function Turn(n: Net): (r: Round) {
    Round(true, false, false, true, true, [123, 125], [123, 125], Signs(SomeSignature()), true, false, n, true, false, true)
  }

  function Task(rounds: seq<Round>): (e: Env) {
    Env(false, true, false, true, true, false, false, false, false, false, rounds, ANSWERS, true)
  }

  /** It does get there: the network fails once as the request begins and is back at once. */
  lemma SignInGetsStuck(rounds: seq<Round>)
    requires forall i | 0 <= i < |rounds| :: Idle(rounds[i], OnRequest)
    ensures var c := Run(FRESH, [Configure(IdToken, Uninitialized), Handle(Task([Turn(DROPS)] + rounds))]);
            c.processing && c.taskRunning && c.status == OnRequest
  {
    hide TaskRun, SomeSignature;
    var ops := [Configure(IdToken, Uninitialized), Handle(Task([Turn(DROPS)] + rounds))];
    var c := FRESH.(tokenType := IdToken);
    assert Act(FRESH, ops[0]) == c;
    assert ops[1..] == [ops[1]] && ops[1..][1..] == [];
    assert Run(FRESH, ops) == Run(c, ops[1..]) == Act(c, ops[1]);
    StuckAfterOneTurn(c.(taskRunning := true), rounds);
  }

  lemma StuckAfterOneTurn(c: Core, rounds: seq<Round>)
    requires !c.processing && c.status == Uninitialized && c.tokenType == IdToken && c.taskRunning
    requires forall i | 0 <= i < |rounds| :: Idle(rounds[i], OnRequest)
    ensures var d := TaskRun(c, [Turn(DROPS)] + rounds); d.processing && d.taskRunning && d.status == OnRequest
  {
    hide SomeSignature;
    var all := [Turn(DROPS)] + rounds;
    assert all[0] == Turn(DROPS) && all[1..] == rounds;
    var d := TaskRound(c, Turn(DROPS)).c;
    SignInNeverEndsIff(d, rounds);
  }

  /** A sign-up talks without the flag. */
  lemma SignUpGoesUnflagged()
    ensures Recorded(Run(FRESH, [SignUp(ANSWERS)]).history, Start(SigningUp, true, false, Other))
  {
    var c := FRESH.(message := false, tokenType := IdToken);
    var e := Start(SigningUp, true, false, Other);
    assert GetIdToken(c, true, ANSWERS).c.history == Then(Then(Beginning, e), Closed);
    assert Recorded(Then(Beginning, e), e) && Recorded(Then(Then(Beginning, e), Closed), e);
    assert [SignUp(ANSWERS)][1..] == [];
    assert Run(FRESH, [SignUp(ANSWERS)]) == Act(FRESH, SignUp(ANSWERS));
  }

  /** A caller's refresh token, given as a custom token without dots, is renewed by a request for a
      custom token that carries the JWT, though none has ever been encoded. */
  lemma EmptyJwtIsRenewed()
    ensures var c := Run(FRESH, [SetToken([65], false, CustomToken, false, ANSWERS), Handle(Task([]).(hasRefreshToken := true))]);
            Recorded(c.history, Start(Renewing, true, true, Jwt([]))) && PhaseOf(c.history) == Nothing
  {
    hide RequestTokens;
    var give := SetToken([65], false, CustomToken, false, ANSWERS);
    var handle := Handle(Task([]).(hasRefreshToken := true));
    var c := Act(FRESH, give);
    assert c == FRESH.(status := Ready, tokenType := CustomToken);
    assert Act(c, handle) == RequestTokens(c, true, ANSWERS).c;
    assert [give, handle][1..] == [handle] && [handle][1..] == [];
    assert Run(FRESH, [give, handle]) == Run(c, [handle]) == Act(c, handle);
    RenewedHistory(c);
  }

  lemma RenewedHistory(c: Core)
    requires c == FRESH.(status := Ready, tokenType := CustomToken)
    ensures var h := RequestTokens(c, true, ANSWERS).c.history;
            Recorded(h, Start(Renewing, true, true, Jwt([]))) && PhaseOf(h) == Nothing
  {
    RequestIsRecorded(c, true, ANSWERS);
    var started := Then(Beginning, Start(Renewing, true, true, Jwt([])));
    assert RequestTokens(c, true, ANSWERS).c.history == Then(Then(started, Replied), Closed);
    assert PhaseOf(started) == Nothing && PhaseOf(Then(started, Replied)) == Nothing;
  }

  /** Some request of the run carried this. */
  predicate Carried(h: History, b: Body) {
    h != Beginning && ((h.event.Start? && h.event.kind == Exchanging && h.event.body == b) || Carried(h.earlier, b))
  }

  lemma TurnGoesOn(c: Core, d: Core, t: Round, rest: seq<Round>)
    requires c.tokenType == OAuth2 && c.status != Ready && TaskRound(c, t) == Done(d, true)
    ensures TaskRun(c, [t] + rest) == TaskRun(d, rest)
  {
    hide TaskRound;
    assert ([t] + rest)[1..] == rest;
  }

  lemma EncodeTurns(c: Core, t: Round)
    requires t.clockReady && t.beginDue && c.tokenType == OAuth2
    ensures c.step == Begin ==> TaskRound(c, t) == Done(c.(step := EncodeHeaderPayload), true)
    ensures c.step == EncodeHeaderPayload ==> TaskRound(c, t) == Done(EncodeJwt(c, t.header, t.payload).(step := Sign), true)
    ensures c.step == Sign ==>
              var s := SignJwt(c, t.signing, t.text);
              TaskRound(c, t) == Done(if s.ok then s.c.(step := Exchange) else s.c, true)
  {
    hide SomeSignature, EncodedText, RequestTokens;
  }

  lemma RefusedTurn(c: Core, t: Round)
    requires t == Turn(REFUSES)
    requires !c.processing && c.step == Exchange && c.status == OnSigning && c.tokenType == OAuth2 && !c.customSet
    ensures var d := TaskRun(c, [t]);
            d.step == Exchange && d.jwt == [] && !d.processing && d.status == Error && !d.taskRunning && SameTask(c.(taskRunning := false), d)
  {
    hide SomeSignature;
    assert !TaskRound(c, t).ok;
  }

  /** A full turn of the steps whose exchange is refused leaves the exchange to be done again,
      with the JWT gone. */
  lemma RefusedExchange(c: Core)
    requires !c.processing && c.step == Begin && c.status == OnInitialize && c.tokenType == OAuth2 && !c.customSet
    ensures var t := Turn(REFUSES); var d := TaskRun(c, [t, t, t, t]);
            d.step == Exchange && d.jwt == [] && !d.processing && d.status == Error && !d.taskRunning && SameTask(c.(taskRunning := false), d)
  {
    hide SomeSignature, EncodedText, TaskRound, TaskRun;
    var t := Turn(REFUSES);
    var c1 := c.(step := EncodeHeaderPayload);
    var c2 := EncodeJwt(c1, t.header, t.payload).(step := Sign);
    var c3 := SignJwt(c2, t.signing, t.text).c.(step := Exchange);
    EncodeTurns(c, t);
    EncodeTurns(c1, t);
    EncodeTurns(c2, t);
    TurnGoesOn(c, c1, t, [t, t, t]);
    TurnGoesOn(c1, c2, t, [t, t]);
    TurnGoesOn(c2, c3, t, [t]);
    assert [t] + [t, t, t] == [t, t, t, t] && [t] + [t, t] == [t, t, t] && [t] + [t] == [t, t];
    RefusedTurn(c3, t);
  }

  /** The step that the refusal asks for is overwritten, so the retry sends an empty JWT. */
  lemma EmptyJwtIsExchanged()
    ensures var t := Turn(REFUSES);
            Carried(Run(FRESH, [Configure(OAuth2, Uninitialized), Handle(Task([t, t, t, t])), Handle(Task([t]))]).history, Jwt([]))
  {
    hide TaskRun, SomeSignature;
    var t := Turn(REFUSES);
    var ops := [Configure(OAuth2, Uninitialized), Handle(Task([t, t, t, t])), Handle(Task([t]))];
    var c := FRESH.(tokenType := OAuth2);
    assert Act(FRESH, ops[0]) == c;
    RefusedExchange(c.(status := OnInitialize, taskRunning := true));
    var d := Act(c, ops[1]);
    assert d == TaskRun(c.(status := OnInitialize, taskRunning := true), [t, t, t, t]);
    RetryIsEmpty(d.(taskRunning := true), t);
    var f := Act(d, ops[2]);
    assert f == TaskRun(d.(taskRunning := true), [t]);
    assert ops[1..] == [ops[1], ops[2]] && ops[1..][1..] == [ops[2]] && [ops[2]][1..] == [];
    assert Run(FRESH, ops) == Run(c, ops[1..]) == Run(d, [ops[2]]);
    assert Run(f, []) == f;
  }

  lemma RetryIsEmpty(c: Core, t: Round)
    requires t == Turn(REFUSES)
    requires !c.processing && c.step == Exchange && c.status == Error && c.tokenType == OAuth2 && !c.customSet && c.jwt == []
    ensures Carried(TaskRun(c, [t]).history, Jwt([]))
  {
    hide SomeSignature;
    var c1 := c.(status := OnRequest, processing := true, message := false).Log(Start(Exchanging, true, true, Jwt([])));
    var q := RequestTokens(c, false, t.net).c;
    assert q.history == Then(Then(c1.history, Replied), Closed);
    assert Carried(c1.history, Jwt([])) && Carried(Then(c1.history, Replied), Jwt([])) && Carried(q.history, Jwt([]));
    assert TaskRound(c, t).c.history == q.history;
  }

  // -------------------------------------------------------------- the digest

  /** An attempt to sign has failed since the header and payload were encoded last. */
  predicate FailedSinceEncoding(h: History) {
    h != Beginning && !h.event.Encoded? && (h.event.SigningFailed? || FailedSinceEncoding(h.earlier))
  }

  lemma {:induction false} DigestIsThereIff(h: History)
    ensures PhaseOf(h).Prepared? || PhaseOf(h).Complete? ==> (PhaseOf(h).digest <==> !FailedSinceEncoding(h))
  {
    if h != Beginning { DigestIsThereIff(h.earlier); }
  }

  /** In every run, a signed JWT that waits to be exchanged was signed over the digest of its header
      and payload exactly if no attempt to sign it had failed before. */
  lemma SignedOverDigestIff(ops: seq<Op>)
    ensures var c := Run(FRESH, ops); var p := PhaseOf(c.history);
            c.step == Exchange && p.Complete? ==>
              c.jwt == SignedText(p.header, p.payload, p.signature) && (p.digest <==> !FailedSinceEncoding(c.history))
  {
    hide SignedText, EncodedText, Act, FailedSinceEncoding;
    PowerUpIsSound();
    RunIsSound(FRESH, ops);
    DigestIsThereIff(Run(FRESH, ops).history);
  }

  /** A failed attempt used the digest up, so the retry signs without one. */
  lemma RetrySignsWithoutDigest()
    ensures var t := Turn(REFUSES); var f := t.(signing := SignFailed);
            var c := Run(FRESH, [Configure(OAuth2, Uninitialized), Handle(Task([t, t, f, t]))]);
            c.step == Exchange && PhaseOf(c.history).Complete? && !PhaseOf(c.history).digest
  {
    hide TaskRun, SomeSignature, PhaseOf;
    var t := Turn(REFUSES);
    var f := t.(signing := SignFailed);
    var ops := [Configure(OAuth2, Uninitialized), Handle(Task([t, t, f, t]))];
    var c := FRESH.(tokenType := OAuth2);
    assert Act(FRESH, ops[0]) == c;
    assert ops[1..] == [ops[1]] && ops[1..][1..] == [];
    assert Run(FRESH, ops) == Run(c, ops[1..]) == Act(c, ops[1]);
    SignedAfterFailure(c.(status := OnInitialize, taskRunning := true));
  }

  lemma SignedAfterFailure(c: Core)
    requires c.step == Begin && c.status == OnInitialize && c.tokenType == OAuth2 && c.history == Beginning && !c.message
    ensures var t := Turn(REFUSES); var d := TaskRun(c, [t, t, t.(signing := SignFailed), t]);
            d.step == Exchange && PhaseOf(d.history).Complete? && !PhaseOf(d.history).digest && d.status == OnSigning
  {
    hide SomeSignature, EncodedText, TaskRound, TaskRun, SignJwt;
    var t := Turn(REFUSES);
    var f := t.(signing := SignFailed);
    var c1 := c.(step := EncodeHeaderPayload);
    var c2 := EncodeJwt(c1, t.header, t.payload).(step := Sign);
    var c3 := SignJwt(c2, f.signing, f.text).c;
    var c4 := SignJwt(c3, t.signing, t.text).c.(step := Exchange);
    FailedAttempt(c2, f);
    SigningRetried(c3, t);
    EncodeTurns(c, t);
    EncodeTurns(c1, t);
    EncodeTurns(c2, f);
    EncodeTurns(c3, t);
    TurnGoesOn(c, c1, t, [t, f, t]);
    TurnGoesOn(c1, c2, t, [f, t]);
    TurnGoesOn(c2, c3, f, [t]);
    TurnGoesOn(c3, c4, t, []);
    assert [t] + [t, f, t] == [t, t, f, t] && [t] + [f, t] == [t, f, t] && [f] + [t] == [f, t] && [t] + [] == [t];
    StillOpen(c4);
    HistoryOfRetry(c3.history, c4.history, t);
  }

  lemma FailedAttempt(c: Core, f: Round)
    requires f.signing == SignFailed && !c.message
    ensures var s := SignJwt(c, f.signing, f.text);
            && !s.ok && s.c.step == c.step && s.c.tokenType == c.tokenType && s.c.status == Error && !s.c.digest
            && s.c.history == Then(Then(c.history, SigningFailed), Closed)
  {
  }

  lemma SigningRetried(c: Core, t: Round)
    requires t.signing.Signs?
    ensures var s := SignJwt(c, t.signing, t.text);
            && s.ok && s.c.tokenType == c.tokenType && s.c.status == OnSigning
            && s.c.history == Then(c.history, Signed(t.signing.signature, c.digest))
  {
  }

  lemma StillOpen(c: Core)
    requires Running(c.tokenType)
    ensures TaskRun(c, []).history == c.history && TaskRun(c, []).step == c.step && TaskRun(c, []).status == c.status
  {
  }

  lemma HistoryOfRetry(failed: History, signed: History, t: Round)
    requires failed == Then(Then(Then(Beginning, Encoded(t.header, t.payload)), SigningFailed), Closed)
    requires t.signing.Signs? && signed == Then(failed, Signed(t.signing.signature, false))
    ensures PhaseOf(signed) == Complete(t.header, t.payload, t.signing.signature, false)
  {
    assert PhaseOf(failed.earlier.earlier) == Prepared(t.header, t.payload, true);
    assert PhaseOf(failed.earlier) == Prepared(t.header, t.payload, false);
    assert PhaseOf(failed) == Prepared(t.header, t.payload, false);
  }
}
