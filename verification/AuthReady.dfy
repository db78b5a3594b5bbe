/** What the token engine is for: a token gets ready, is renewed when it has expired, and lets the
    services' requests through. */
module AuthReady {
  import opened Auth
  import opened AuthProofs
  import opened AuthLaws
  import Base64Spec

  // -------------------------------------------------------- the handler's answer

  /** An ID token set by the caller without means to renew it. */
  predicate CannotRenew(c: Core, e: Env) {
    !c.customSet && e.expired && e.issued && IsAuthToken(c.tokenType, false) && e.requestDue && e.anonymousIdToken
  }

  /** The handler's yes means that the token is ready, but for a token that cannot be renewed. */
  lemma YesMeansReady(c: Core, e: Env)
    requires HandleToken(c, e).ok && !(CannotRenew(c, e) && !e.testMode)
    ensures HandleToken(c, e).c.status == Ready
  {
    hide RequestTokens, RefreshToken, TokenProcessingTask, PrepareTask;
  }

  /** Before it expires, a token is good if the caller gave it, if it is a legacy one, or if the engine
      has made it; without any token there is an error. */
  lemma UnexpiredIsGoodIff(c: Core, e: Env)
    requires !e.testMode && !e.expired
    ensures var d := HandleToken(c, e);
            && (d.ok <==> c.customSet || e.accessSet || c.tokenType == Legacy || (c.tokenType != Undefined && c.status == Ready))
            && (d.ok ==> d.c.status == Ready)
            && (c.tokenType == Undefined && !c.customSet && !e.accessSet ==> d.c.status == Error)
  {
  }

  /** An expired token that was issued for a user is refreshed exactly when the timers allow it and
      no request is under way, and the answer says whether that succeeded; otherwise nothing
      changes. */
  lemma ExpiredTokenIsRefreshedIff(c: Core, e: Env)
    requires !e.testMode && !c.customSet && e.expired && e.issued && IsAuthToken(c.tokenType, false) && !e.anonymousIdToken
    ensures var d := HandleToken(c, e);
            var tries := e.requestDue && e.refreshDue && !Requesting(c) && e.net.renewable;
            && (d.ok <==> tries && e.net.Accepted())
            && (tries && e.net.Connects() ==> Recorded(d.c.history, Start(Refreshing, true, true, Grant)))
            && (!tries ==> d.c == c)
  {
    hide RefreshToken, TaskRun, RequestTokens, Recorded;
    if e.requestDue && !c.processing && e.refreshDue {
      RefreshIsRecorded(c, e.net);
      if !(!Requesting(c) && e.net.renewable) { NoRefresh(c, e.net); }
    }
  }

  lemma NoRefresh(c: Core, n: Net)
    requires Requesting(c) || !n.renewable
    ensures RefreshToken(c, n).c == c
  {
  }

  lemma RefreshIsRecorded(c: Core, n: Net)
    ensures !Requesting(c) && n.renewable && n.Connects() ==> Recorded(RefreshToken(c, n).c.history, Start(Refreshing, true, true, Grant))
  {
    hide HandleTaskError;
    if !Requesting(c) && n.renewable && n.Connects() {
      var e := Start(Refreshing, true, true, Grant);
      var c1 := c.(status := OnRefresh, processing := true, message := false).Log(e);
      assert Recorded(c1.history, e);
      ClosingKeepsRecords(c1, ConnectionLost, n.text, e);
      ClosingKeepsRecords(c1, TimedOut(n.http), n.text, e);
      var c2 := c1.(status := if n.errorField then Error else c1.status, message := n.serverText);
      assert Recorded(c2.history, e);
      ClosingKeepsRecords(c2, if n.ErrorCode() == 0 then Completed else ErrorUnnotified, n.text, e);
    }
  }

  /** A custom token of the caller's is good until it expires; then it is traded for another exactly
      when the timer allows it and the server accepts, after which it is no longer needed. */
  lemma CustomTokenIsTradedIff(c: Core, e: Env)
    requires !e.testMode && c.customSet
    ensures var d := HandleToken(c, e);
            && (d.ok <==> !e.expired || (e.requestDue && !c.processing && e.net.Accepted()))
            && (d.c.customSet <==> !(e.expired && d.ok)) && (d.ok ==> d.c.status == Ready)
  {
    hide RequestTokens;
  }

  /** Any other token that comes with a refresh token is renewed exactly if the server accepts. */
  lemma GrantIsRenewedIff(c: Core, e: Env)
    requires !e.testMode && !c.customSet && e.expired && TradesJwt(c.tokenType) && e.hasRefreshToken
    requires !(e.issued && c.tokenType == CustomToken)
    ensures var d := HandleToken(c, e);
            && (d.ok <==> !Requesting(c) && e.net.Accepted())
            && (!Requesting(c) && e.net.Connects() ==> Recorded(d.c.history, Start(Renewing, true, true, BodyOf(c, true))))
  {
    hide RequestTokens, Recorded, BodyOf;
    assert HandleToken(c, e) == RequestTokens(c, true, e.net);
    if !Requesting(c) && e.net.Connects() { RequestIsRecorded(c, true, e.net); }
  }

  /** What the caller hands over is a refresh token if it is no token at all, or a custom token
      without two dots. */
  predicate GivesRefreshToken(token: seq<bv8>, hasRefresh: bool, t: TokenType) {
    (token == [] && hasRefresh) || (token != [] && t == CustomToken && !HasTwoDots(token))
  }

  /** A token taken over is ready for use at once, a custom token for the handler to trade; a refresh
      token is used for a request, whose success decides; and nothing at all resets the engine. */
  lemma TokenIsTakenOverIff(c: Core, token: seq<bv8>, hasRefresh: bool, t: TokenType, canRenew: bool, n: Net)
    ensures
      var r := SetAuthToken(c, token, hasRefresh, t, canRenew, n);
      && (token == [] && !hasRefresh ==> r.status == Uninitialized && !r.customSet && r.history == c.history)
      && (token != [] && !GivesRefreshToken(token, hasRefresh, t) ==>
            r.status == Ready && r.tokenType == t && r.history == c.history && (r.customSet <==> t == CustomToken))
      && (GivesRefreshToken(token, hasRefresh, t) && canRenew && !c.processing && n.Connects() && (t == OAuth2 || n.renewable) ==>
            && (r.status == Ready <==> n.Accepted())
            && Recorded(r.history, Start(if t == OAuth2 then Renewing else Refreshing, true, true, Grant)))
  {
    hide RequestTokens, RefreshToken, HasTwoDots, Recorded;
    NoDotsInNothing();
    if GivesRefreshToken(token, hasRefresh, t) && canRenew {
      var c2 := c.(status := Ready, step := Begin, tokenType := t, customSet := false);
      assert SetAuthToken(c, token, hasRefresh, t, canRenew, n) == Renew(c2, n);
      if t == OAuth2 {
        if !c.processing && n.Connects() { RequestIsRecorded(c2, true, n); }
      } else {
        RefreshIsRecorded(c2, n);
      }
    }
  }

  lemma NoDotsInNothing()
    ensures !HasTwoDots([])
  {
  }

  // ---------------------------------------------------------- the services' requests

  /** With a token that is ready and has not expired, a free flag and a connection, the services'
      requests start and bring back what the service answers. */
  lemma ReadyEngineServes(c: Core, e: Env, s: Service, longRunning: int)
    requires c.status == Ready && !c.taskRunning && !c.processing && !e.expired
    requires s.connected && s.networkUp && s.headerSent && longRunning <= 0
    ensures FirestoreRequest(c, e, s, longRunning).ok == s.succeeds && FunctionsRequest(c, e, s).ok == s.succeeds
    ensures Recorded(FirestoreRequest(c, e, s, longRunning).c.history, Start(InFirestore(Moment(Ready, false, true)), true, true, Other))
    ensures Recorded(FunctionsRequest(c, e, s).c.history, Start(InFunctions(Moment(Ready, false, true)), true, true, Other))
  {
  }

  /** An expired token is renewed on the way, and the request starts exactly if that succeeds. */
  lemma ServiceRenewsIff(c: Core, e: Env, s: Service)
    requires !e.testMode && !c.customSet && !c.taskRunning && !Requesting(c) && e.expired && TradesJwt(c.tokenType) && e.hasRefreshToken
    requires !(e.issued && c.tokenType == CustomToken) && e.net.reconnects && s.connected && s.networkUp && s.headerSent
    ensures FirestoreRequest(c, e, s, 0).ok <==> e.net.Accepted() && s.succeeds
    ensures FunctionsRequest(c, e, s).ok <==> e.net.Accepted() && s.succeeds
  {
    hide RequestTokens;
    assert HandleToken(c, e) == RequestTokens(c, true, e.net);
  }

  // ------------------------------------------------------------- whole runs

  function SigningTurn(header: Json, payload: Json, signature: Signature): (r: Round) {
    Turn(ANSWERS).(header := header, payload := payload, signing := Signs(signature))
  }

  lemma ExchangeTurn(c: Core, t: Round, text: seq<bv8>)
    requires t.clockReady && t.exchangeDue && t.net == ANSWERS && t.networkUp
    requires !c.processing && c.step == Exchange && c.status == OnSigning && c.tokenType == OAuth2 && !c.customSet && c.jwt == text
    ensures var d := TaskRun(c, [t]);
            d.status == Ready && !d.processing && !d.taskRunning && d.step == Begin && d.jwt == []
            && SameTask(c.(taskRunning := false), d) && Recorded(d.history, Start(Exchanging, true, true, Jwt(text)))
  {
    hide RequestTokens, Recorded;
    RequestIsRecorded(c, false, ANSWERS);
    assert TaskRound(c, t).c == RequestTokens(c, false, ANSWERS).c;
    assert !TaskRound(c, t).ok;
  }

  /** Four turns of the task make the signed JWT of a header, a payload and a signature, exchange it,
      and leave the engine ready. */
  lemma TaskGetsToken(c: Core, header: Json, payload: Json, signature: Signature)
    requires !c.processing && c.step == Begin && c.status == OnInitialize && c.tokenType == OAuth2 && !c.customSet
    ensures var t := SigningTurn(header, payload, signature); var d := TaskRun(c, [t, t, t, t]);
            d.status == Ready && !d.processing && !d.taskRunning && d.tokenType == OAuth2 && !d.customSet
            && Recorded(d.history, Start(Exchanging, true, true, Jwt(SignedText(header, payload, signature))))
  {
    hide SomeSignature, EncodedText, TaskRound, TaskRun, Recorded;
    var t := SigningTurn(header, payload, signature);
    var c1 := c.(step := EncodeHeaderPayload);
    var c2 := EncodeJwt(c1, header, payload).(step := Sign);
    var c3 := SignJwt(c2, t.signing, t.text).c.(step := Exchange);
    EncodeTurns(c, t);
    EncodeTurns(c1, t);
    EncodeTurns(c2, t);
    TurnGoesOn(c, c1, t, [t, t, t]);
    TurnGoesOn(c1, c2, t, [t, t]);
    TurnGoesOn(c2, c3, t, [t]);
    assert [t] + [t, t, t] == [t, t, t, t] && [t] + [t, t] == [t, t, t] && [t] + [t] == [t, t];
    ExchangeTurn(c3, t, SignedText(header, payload, signature));
  }

  /** From power-up to a service's answer: the token is made, signed, exchanged, and used. */
  lemma EngineServesFromPowerUp(header: Json, payload: Json, signature: Signature, e: Env, s: Service)
    requires !e.expired && s.connected && s.networkUp
    ensures var t := SigningTurn(header, payload, signature);
            var r := Run(FRESH, [Configure(OAuth2, Uninitialized), Handle(Task([t, t, t, t]))]);
            && r.status == Ready && !r.taskRunning
            && Recorded(r.history, Start(Exchanging, true, true, Jwt(SignedText(header, payload, signature))))
            && FirestoreRequest(r, e, s, 0).ok == s.succeeds
  {
    hide TaskRun, SomeSignature, Recorded, SignedText;
    var t := SigningTurn(header, payload, signature);
    var ops := [Configure(OAuth2, Uninitialized), Handle(Task([t, t, t, t]))];
    var c := FRESH.(tokenType := OAuth2);
    assert Act(FRESH, ops[0]) == c;
    TaskGetsToken(c.(status := OnInitialize, taskRunning := true), header, payload, signature);
    var d := Act(c, ops[1]);
    assert d == TaskRun(c.(status := OnInitialize, taskRunning := true), [t, t, t, t]);
    assert ops[1..] == [ops[1]] && ops[1..][1..] == [];
    assert Run(FRESH, ops) == Run(c, ops[1..]) == d;
  }

  /** A sign-in needs one turn. */
  lemma SignInGetsToken(c: Core, t: Round)
    requires !c.processing && c.status == Uninitialized && c.tokenType == IdToken && t == Turn(ANSWERS)
    ensures var d := TaskRun(c, [t]); d.status == Ready && !d.processing && !d.taskRunning
  {
    hide SomeSignature, GetIdToken;
    assert !TaskRound(c, t).ok;
  }
}
