/** What holds in every run of the token engine: who may hold the request flag, and what the
    JWT is that a request carries. The history of a run is read by two small automata that know
    nothing of the engine's fields. */
module AuthProofs {
  import opened Auth
  import Base64Spec

  // ------------------------------------------------------ reading the history

  /** How far the making of a JWT has come, and whether the digest of header and payload is there
      to be signed, as it is until an attempt to sign has failed. `Used` once a server has
      answered. */
  datatype Phase =
    | Nothing
    | Prepared(header: Json, payload: Json, digest: bool)
    | Complete(header: Json, payload: Json, signature: Signature, digest: bool)
    | Used
    | OutOfOrder

  function NextPhase(p: Phase, e: Event): (q: Phase) {
    match e
    case Encoded(h, l) => if p.OutOfOrder? then p else Prepared(h, l, true)
    case SigningFailed => if p.Prepared? then Prepared(p.header, p.payload, false) else OutOfOrder
    case Signed(s, digest) => if p.Prepared? && digest == p.digest then Complete(p.header, p.payload, s, digest) else OutOfOrder
    case Replied => if p.OutOfOrder? then p else if p.Complete? || p.Used? then Used else Nothing
    case _ => p
  }

  function PhaseOf(h: History): (p: Phase) {
    if h == Beginning then Nothing else NextPhase(PhaseOf(h.earlier), h.event)
  }

  /** The last thing that happened to the flag was one of the three ways to leave it set: the
      network was gone after the flag was taken, a user was deleted, or a header was lost. */
  predicate LeftSet(h: History) {
    h != Beginning
    && match h.event
       case Closed => false
       case Deleted => true
       case HeaderLost => true
       case NoNetwork(took) => took || LeftSet(h.earlier)
       case _ => LeftSet(h.earlier)
  }

  /** Some request holds the flag: it took it and has not been closed since. */
  predicate Taken(h: History) {
    h != Beginning
    && match h.event
       case Start(_, _, held, _) => held
       case Closed => false
       case NoNetwork(took) => took || Taken(h.earlier)
       case _ => Taken(h.earlier)
  }

  /** The JWT as the history tells it. */
  function JwtOf(p: Phase): (text: seq<bv8>) {
    match p
    case Prepared(header, payload, _) => EncodedText(header, payload)
    case Complete(header, payload, signature, _) => SignedText(header, payload, signature)
    case _ => []
  }

  /** A request starts while no other holds the flag and holds it while it talks, exactly if it is
      no sign-up. Every request that carries the JWT, be it an exchange or a renewal, carries what
      the history tells; an exchange only once that has been signed. A service's request starts only
      with a token that is ready, no task running, and the network up. */
  predicate EventIsSafe(earlier: History, e: Event) {
    e.Start? ==>
      && e.wasFree && !Taken(earlier)
      && (e.held <==> e.kind != SigningUp)
      && MayTalk(e.kind)
      && (e.body.Jwt? ==> CarriesJwt(e.kind, e.body.text, PhaseOf(earlier)))
  }

  predicate MayTalk(kind: Kind) { kind.InFirestore? || kind.InFunctions? ==> kind.at == Moment(Ready, false, true) }

  predicate CarriesJwt(kind: Kind, text: seq<bv8>, p: Phase) {
    text == JwtOf(p) && (kind == Renewing || (kind == Exchanging && WasSigned(p)))
  }

  predicate WasSigned(p: Phase) { p.Complete? || p.Used? }

  predicate AllSafe(h: History) {
    h != Beginning ==> AllSafe(h.earlier) && EventIsSafe(h.earlier, h.event)
  }

  // ----------------------------------------------------------- the invariant

  predicate JwtSound(c: Core) {
    var p := PhaseOf(c.history);
    && !p.OutOfOrder? && c.jwt == JwtOf(p)
    && (c.step == Sign ==> p.Prepared? && c.digest == p.digest)
    && (c.step == Exchange ==> WasSigned(p))
    && (c.customSet ==> c.step == Begin)
  }

  /** The part of it that also holds while a request is under way. */
  predicate Steady(c: Core) { JwtSound(c) && AllSafe(c.history) }

  predicate Sound(c: Core) {
    Steady(c) && (c.processing <==> LeftSet(c.history)) && (c.processing <==> Taken(c.history))
  }

  // -------------------------------------------------------- each call keeps it

  /** The status, the type, the error text and the task's own flag do not matter. */
  predicate SameParts(c: Core, d: Core) {
    d.history == c.history && d.step == c.step && d.jwt == c.jwt && d.digest == c.digest && d.customSet == c.customSet
  }

  lemma SoundIgnores(c: Core, d: Core)
    requires SameParts(c, d)
    ensures Steady(c) ==> Steady(d)
    ensures Sound(c) && d.processing == c.processing ==> Sound(d)
  {
    hide PhaseOf, LeftSet, Taken, AllSafe, JwtOf;
  }

  lemma SetTokenErrorIsSound(c: Core, failed: bool, text: bool)
    requires Sound(c)
    ensures Sound(SetTokenError(c, failed, text))
  {
    hide EncodedText, SignedText;
  }

  lemma ClosedIsSound(c: Core)
    requires Steady(c)
    ensures Sound(c.(processing := false).Log(Closed))
  {
    hide EncodedText, SignedText;
  }

  lemma LeftIsSound(c: Core, e: Event)
    requires Steady(c) && c.processing && Taken(c.history)
    requires e == Deleted || e == HeaderLost
    ensures Sound(c.Log(e))
  {
    hide EncodedText, SignedText;
  }

  /** Closing a request clears the flag whatever happened before. */
  lemma HandleTaskErrorIsSound(c: Core, code: TaskCode, text: bool)
    requires Steady(c)
    ensures Sound(HandleTaskError(c, code, text).c)
  {
    hide EncodedText, SignedText, SetTokenError;
    var c1 := c.(processing := false).Log(Closed);
    assert Sound(c1);
    SetTokenErrorIsSound(c1.(message := false), true, text);
    SetTokenErrorIsSound(c1.(message := text), true, text);
    SetTokenErrorIsSound(c1, true, text);
  }

  lemma InitClientIsSound(c: Core, status: Status, n: Net)
    requires Sound(c)
    ensures var i := InitClient(c, status, n).c;
            Steady(i) && (n.Connects() || Sound(i)) && (n.Connects() ==> SameParts(c, i))
  {
    hide EncodedText, SignedText, HandleTaskError;
    HandleTaskErrorIsSound(c.(status := status, processing := true, message := false), TimedOut(NOT_INITIALIZED), n.text);
    HandleTaskErrorIsSound(c, TimedOut(NOT_INITIALIZED), n.text);
  }

  lemma StartIsSteady(c: Core, kind: Kind, held: bool, body: Body)
    requires Steady(c) && !Taken(c.history) && (held <==> kind != SigningUp) && MayTalk(kind)
    requires body.Jwt? ==> CarriesJwt(kind, body.text, PhaseOf(c.history))
    ensures Steady(c.Log(Start(kind, true, held, body)))
  {
    hide EncodedText, SignedText;
  }

  lemma RequestTokensIsSound(c: Core, refresh: bool, n: Net)
    requires Sound(c) && TradesJwt(c.tokenType)
    requires refresh || (c.customSet && c.tokenType == CustomToken) || c.step == Exchange
    ensures Sound(RequestTokens(c, refresh, n).c)
  {
    hide JwtOf, InitClient, HandleTaskError, PhaseOf, AllSafe, LeftSet, Taken, AfterReply;
    if !RequestBlocked(c, refresh, n) {
      var status := if refresh then OnRefresh else OnRequest;
      InitClientIsSound(c, status, n);
      var i := InitClient(c, status, n);
      if i.ok {
        var kind := if refresh then Renewing else Exchanging;
        StartIsSteady(i.c, kind, true, BodyOf(i.c, refresh));
        var c1 := i.c.Log(Start(kind, true, true, BodyOf(i.c, refresh)));
        HandleTaskErrorIsSound(c1, ConnectionLost, n.text);
        HandleTaskErrorIsSound(c1, TimedOut(n.http), n.text);
        if n.answered { ReplyIsSound(c1, n); }
      }
    }
  }

  lemma RepliedIsSafe(c: Core, n: Net)
    requires Steady(c)
    ensures var h := AfterReply(c, n).history;
            AllSafe(h) && PhaseOf(h) == NextPhase(PhaseOf(c.history), Replied) && !PhaseOf(h).OutOfOrder?
    ensures AfterReply(c, n).customSet ==> c.step == Begin
  {
    hide EncodedText, SignedText;
  }

  lemma ErrorLogs(c: Core, failed: bool, text: bool)
    requires AllSafe(c.history) && !LeftSet(c.history) && !Taken(c.history)
    ensures var h := SetTokenError(c, failed, text).history; AllSafe(h) && !LeftSet(h) && !Taken(h)
  {
    hide PhaseOf;
  }

  lemma ClosingLogs(c: Core, code: TaskCode, text: bool)
    requires AllSafe(c.history)
    ensures var h := HandleTaskError(c, code, text).c.history; AllSafe(h) && !LeftSet(h) && !Taken(h)
  {
    hide SetTokenError, PhaseOf;
    var c1 := c.(processing := false).Log(Closed);
    ErrorLogs(c1, true, text);
    ErrorLogs(c1.(message := false), true, text);
    ErrorLogs(c1.(message := text), true, text);
  }

  /** With an answer the JWT is gone, and so is the step that needed it. */
  lemma ReplyIsSound(c: Core, n: Net)
    requires Steady(c) && TradesJwt(c.tokenType)
    ensures Sound(HandleTaskError(AfterReply(c, n), if n.ErrorCode() == 0 then Completed else ErrorUnnotified, n.text).c)
  {
    hide EncodedText, SignedText, HandleTaskError, AfterReply, LeftSet, Taken, AllSafe, PhaseOf;
    var a := AfterReply(c, n);
    var code := if n.ErrorCode() == 0 then Completed else ErrorUnnotified;
    RepliedIsSafe(c, n);
    ClosingLogs(a, code, n.text);
    ClosingKeepsText(a, code, n.text);
  }

  lemma RefreshTokenIsSound(c: Core, n: Net)
    requires Sound(c)
    ensures Sound(RefreshToken(c, n).c)
  {
    hide EncodedText, SignedText, InitClient, HandleTaskError, PhaseOf, AllSafe, LeftSet, Taken;
    if !Requesting(c) && n.renewable {
      InitClientIsSound(c, OnRefresh, n);
      var i := InitClient(c, OnRefresh, n);
      if i.ok {
        StartIsSteady(i.c, Refreshing, true, Grant);
        var c1 := i.c.Log(Start(Refreshing, true, true, Grant));
        RequestCloses(c1, n);
        RequestCloses(c1.(status := Error, message := n.serverText), n);
        RequestCloses(c1.(message := n.serverText), n);
      }
    }
  }

  /** All the ways a request is closed. */
  lemma RequestCloses(c: Core, n: Net)
    requires Steady(c)
    ensures Sound(HandleTaskError(c, ConnectionLost, n.text).c)
    ensures Sound(HandleTaskError(c, TimedOut(n.http), n.text).c)
    ensures Sound(HandleTaskError(c, Completed, n.text).c)
    ensures Sound(HandleTaskError(c, ErrorUnnotified, n.text).c)
  {
    hide Sound, Steady, HandleTaskError;
    HandleTaskErrorIsSound(c, ConnectionLost, n.text);
    HandleTaskErrorIsSound(c, TimedOut(n.http), n.text);
    HandleTaskErrorIsSound(c, Completed, n.text);
    HandleTaskErrorIsSound(c, ErrorUnnotified, n.text);
  }

  lemma TakeIdTokenIsSound(c: Core, createUser: bool, n: Net)
    requires Steady(c)
    ensures Sound(TakeIdToken(c, createUser, n).c)
  {
    hide HandleTaskError, Steady, Sound;
    var c1 := if createUser then c
              else c.(status := if n.errorField then Error else c.status, message := n.serverText);
    var c2 := if createUser then c1.(tokenType := IdToken) else c1;
    SoundIgnores(c, c1);
    SoundIgnores(c1, c2);
    RequestCloses(c1, n);
    RequestCloses(c2, n);
  }

  lemma GetIdTokenIsSound(c: Core, createUser: bool, n: Net)
    requires Sound(c)
    ensures Sound(GetIdToken(c, createUser, n).c)
  {
    hide InitClient, HandleTaskError, TakeIdToken, Steady, Sound;
    if !Requesting(c) {
      var status := if createUser then Uninitialized else OnRequest;
      InitClientIsSound(c, status, n);
      var i := InitClient(c, status, n);
      if i.ok {
        var kind := if createUser then SigningUp else SigningIn;
        FreeWhenIdle(c);
        StartIsSteady(i.c, kind, i.c.processing, Other);
        var c1 := i.c.Log(Start(kind, true, i.c.processing, Other));
        RequestCloses(c1, n);
        TakeIdTokenIsSound(c1, createUser, n);
      }
    }
  }

  lemma FreeWhenIdle(c: Core)
    requires Sound(c) && !c.processing
    ensures !Taken(c.history)
  {
    hide Steady, LeftSet;
  }

  lemma DeleteIdTokenIsSound(c: Core, own: bool, n: Net)
    requires Sound(c)
    ensures Sound(DeleteIdToken(c, own, n).c)
  {
    hide InitClient, HandleTaskError, Steady, Sound;
    if !Requesting(c) {
      InitClientIsSound(c, Uninitialized, n);
      var i := InitClient(c, Uninitialized, n);
      if i.ok {
        FreeWhenIdle(c);
        var busy := i.c.(processing := true);
        SoundIgnores(i.c, busy);
        StartIsSteady(busy, Deleting, true, Other);
        var c1 := busy.Log(Start(Deleting, true, true, Other));
        RequestCloses(c1, n);
        LeftIsSound(c1, Deleted);
        BackAtBegin(c1);
        LeftIsSound(c1.(step := Begin, tokenType := Undefined), Deleted);
      }
    }
  }

  lemma BackAtBegin(c: Core)
    requires Steady(c)
    ensures Steady(c.(step := Begin, tokenType := Undefined))
  {
    hide JwtOf, PhaseOf, AllSafe;
  }

  lemma SendEmailIsSound(c: Core, n: Net)
    requires Sound(c)
    ensures Sound(SendEmail(c, n).c)
  {
    hide EncodedText, SignedText, InitClient, HandleTaskError, PhaseOf, AllSafe, LeftSet, Taken;
    if !c.processing {
      InitClientIsSound(c, Uninitialized, n);
      var i := InitClient(c, Uninitialized, n);
      if i.ok {
        StartIsSteady(i.c.(processing := true), Mailing, true, Other);
        RequestCloses(i.c.(processing := true).Log(Start(Mailing, true, true, Other)), n);
      }
    }
  }

  lemma RenewIsSound(c: Core, n: Net)
    requires Sound(c)
    ensures Sound(Renew(c, n))
  {
    hide RequestTokens, RefreshToken, Sound;
    if c.tokenType == OAuth2 { RequestTokensIsSound(c, true, n); } else { RefreshTokenIsSound(c, n); }
  }

  lemma CheckNetworkIsSound(c: Core, up: bool, text: bool)
    requires Sound(c)
    ensures Sound(CheckNetwork(c, up, text))
  {
    hide EncodedText, SignedText;
  }

  lemma AfterRequestIsSound(c: Core, r: Round)
    requires Sound(c)
    ensures Sound(AfterRequest(c, r))
  {
    hide CheckNetwork, HandleTaskError, JwtSound, PhaseOf, AllSafe, LeftSet, Taken;
    CheckNetworkIsSound(c, r.networkUp, r.text);
    HandleTaskErrorIsSound(CheckNetwork(c, r.networkUp, r.text), ConnectionLost, r.text);
  }

  lemma AwaitClockIsSound(c: Core, r: Round)
    requires Sound(c)
    ensures Sound(AwaitClock(c, r).c)
  {
    hide EncodedText, SignedText;
  }

  lemma EncodeIsSound(c: Core, header: Json, payload: Json)
    requires Sound(c) && c.step == EncodeHeaderPayload
    ensures Sound(EncodeJwt(c, header, payload).(step := Sign))
  {
    hide EncodedText, SignedText;
  }

  lemma SignIsSound(c: Core, signing: Signing, text: bool)
    requires Sound(c) && c.step == Sign
    ensures var s := SignJwt(c, signing, text); Sound(if s.ok then s.c.(step := Exchange) else s.c)
  {
    hide Sound, Steady, SetTokenError;
    var c1 := c.(status := OnSigning);
    SoundIgnores(c, c1);
    match signing {
      case Signs(s) => SignatureIsSound(c1, s);
      case SignFailed =>
        var tried := c1.(digest := false).Log(SigningFailed);
        FailedAttemptIsSound(c1);
        ErrorTextIsSound(tried, text);
      case _ => ErrorTextIsSound(c1, text);
    }
  }

  lemma ErrorTextIsSound(c: Core, text: bool)
    requires Sound(c)
    ensures Sound(SetTokenError(c, true, text).(message := true))
  {
    hide Sound, Steady, SetTokenError;
    SetTokenErrorIsSound(c, true, text);
    SoundIgnores(SetTokenError(c, true, text), SetTokenError(c, true, text).(message := true));
  }

  lemma SignatureIsSound(c: Core, s: Signature)
    requires Sound(c) && c.step == Sign
    ensures Sound(c.(jwt := c.jwt + Base64Spec.UrlEncode(s), digest := false, step := Exchange).Log(Signed(s, c.digest)))
  {
    hide EncodedText;
  }

  lemma FailedAttemptIsSound(c: Core)
    requires Sound(c) && c.step == Sign
    ensures Sound(c.(digest := false).Log(SigningFailed))
  {
    hide EncodedText, SignedText;
  }

  lemma ErrorKeepsText(c: Core, failed: bool, text: bool)
    ensures var h := SetTokenError(c, failed, text); h.jwt == c.jwt && PhaseOf(h.history) == PhaseOf(c.history)
  {
  }

  lemma ClosingKeepsText(c: Core, code: TaskCode, text: bool)
    ensures var h := HandleTaskError(c, code, text).c; h.jwt == c.jwt && PhaseOf(h.history) == PhaseOf(c.history)
  {
    hide SetTokenError;
    var c1 := c.(processing := false).Log(Closed);
    ErrorKeepsText(c1, true, text);
    ErrorKeepsText(c1.(message := false), true, text);
    ErrorKeepsText(c1.(message := text), true, text);
  }

  lemma ReplyKeepsSigned(c: Core, n: Net)
    requires WasSigned(PhaseOf(c.history))
    ensures PhaseOf(AfterReply(c, n).history).Used?
  {
  }

  lemma ExchangeKeepsSigned(c: Core, n: Net)
    requires WasSigned(PhaseOf(c.history)) && TradesJwt(c.tokenType)
    ensures WasSigned(PhaseOf(RequestTokens(c, false, n).c.history))
  {
    hide HandleTaskError, AfterReply, BodyOf;
    var c0 := c.(status := OnRequest, processing := true, message := false);
    ClosingKeepsText(c0, TimedOut(NOT_INITIALIZED), n.text);
    var c1 := c0.Log(Start(Exchanging, !c.processing, true, BodyOf(c0, false)));
    ClosingKeepsText(c1, ConnectionLost, n.text);
    ClosingKeepsText(c1, TimedOut(n.http), n.text);
    ReplyKeepsSigned(c1, n);
    ClosingKeepsText(AfterReply(c1, n), if n.ErrorCode() == 0 then Completed else ErrorUnnotified, n.text);
  }

  /** After an exchange the task stays at that step, whatever the answer set. */
  lemma ExchangeIsSound(c: Core, n: Net, late: bool)
    requires Sound(c) && c.step == Exchange && TradesJwt(c.tokenType)
    ensures var q := RequestTokens(c, false, n); Sound(q.c.(step := if q.ok || late then Begin else Exchange))
  {
    hide RequestTokens, PhaseOf, LeftSet, Taken, AllSafe, JwtOf;
    RequestTokensIsSound(c, false, n);
    ExchangeKeepsSigned(c, n);
  }

  lemma JwtRoundIsSound(c: Core, r: Round, clock: bool)
    requires Sound(c) && TradesJwt(c.tokenType) && !c.customSet
    ensures Sound(JwtRound(c, r, clock).c)
  {
    hide RequestTokens, SignJwt, AfterRequest, EncodeJwt, PhaseOf, LeftSet, Taken, AllSafe, EncodedText, SignedText;
    match c.step {
      case Begin => 
      case EncodeHeaderPayload => EncodeIsSound(c, r.header, r.payload);
      case Sign => SignIsSound(c, r.signing, r.text);
      case Exchange =>
        ExchangeIsSound(c, r.net, r.late);
        var q := RequestTokens(c, false, r.net);
        AfterRequestIsSound(q.c.(step := if q.ok || r.late then Begin else Exchange), r);
    }
  }

  lemma TaskRoundIsSound(c: Core, r: Round)
    requires Sound(c) && Running(c.tokenType) && !c.customSet
    ensures Sound(TaskRound(c, r).c)
  {
    hide AwaitClock, GetIdToken, AfterRequest, JwtRound, Sound;
    AwaitClockIsSound(c, r);
    var w := AwaitClock(c, r);
    if w.ok && c.tokenType == IdToken {
      GetIdTokenIsSound(w.c, false, r.net);
      AfterRequestIsSound(GetIdToken(w.c, false, r.net).c, r);
    } else if w.ok {
      JwtRoundIsSound(w.c, r, r.clockReady || r.clockReadyNow);
    }
  }

  lemma {:induction false} TaskRunIsSound(c: Core, rounds: seq<Round>)
    requires Sound(c) && Running(c.tokenType) && !c.customSet
    ensures Sound(TaskRun(c, rounds))
    decreases |rounds|
  {
    hide TaskRound, PhaseOf, LeftSet, Taken, AllSafe, EncodedText, SignedText;
    if c.status != Ready && rounds != [] {
      TaskRoundIsSound(c, rounds[0]);
      var d := TaskRound(c, rounds[0]);
      if d.ok { TaskRunIsSound(d.c, rounds[1..]); }
    }
  }

  lemma PreparedIsSound(c: Core, e: Env)
    requires Sound(c)
    ensures Sound(PrepareTask(c, e)) && PrepareTask(c, e).customSet == c.customSet
  {
    hide Sound;
    SoundIgnores(c, PrepareTask(c, e));
  }

  lemma TaskIsSound(c: Core, sessionOpen: bool, rounds: seq<Round>)
    requires Sound(c) && Running(c.tokenType) && !c.customSet
    ensures Sound(TokenProcessingTask(c, sessionOpen, rounds))
  {
    hide Sound, TaskRun;
    SoundIgnores(c, c.(taskRunning := true));
    TaskRunIsSound(c.(taskRunning := true), rounds);
  }

  lemma HandleTokenIsSound(c: Core, e: Env)
    requires Sound(c)
    ensures Sound(HandleToken(c, e).c)
  {
    hide RequestTokens, RefreshToken, TokenProcessingTask, PrepareTask, SetTokenError, UseCustomToken, Sound;
    SoundIgnores(c, c.(message := false));
    SoundIgnores(c, c.(status := Ready));
    SetTokenErrorIsSound(c, false, e.text);
    SetTokenErrorIsSound(c.(message := false), true, e.text);
    if c.customSet {
      UseCustomTokenIsSound(c, e);
    } else if Running(c.tokenType) {
      RefreshTokenIsSound(c, e.net);
      PreparedIsSound(c, e);
      TaskIsSound(c, e.sessionOpen, e.rounds);
      TaskIsSound(PrepareTask(c, e), e.sessionOpen, e.rounds);
      if TradesJwt(c.tokenType) { RequestTokensIsSound(c, true, e.net); }
    }
  }

  lemma UseCustomTokenIsSound(c: Core, e: Env)
    requires Sound(c) && c.customSet
    ensures Sound(UseCustomToken(c, e).c)
  {
    hide RequestTokens, PhaseOf, LeftSet, Taken, AllSafe, JwtOf;
    var c1 := c.(status := Uninitialized, tokenType := CustomToken);
    RequestTokensIsSound(c1, false, e.net);
    CustomTokenAtBegin(c1, e.net);
  }

  lemma CustomTokenAtBegin(c: Core, n: Net)
    requires c.customSet && c.step == Begin && TradesJwt(c.tokenType)
    ensures RequestTokens(c, false, n).c.step == Begin
  {
  }

  lemma TokenReadyIsSound(c: Core, e: Env, networkUp: bool)
    requires Sound(c)
    ensures Sound(TokenReady(c, e, networkUp).c)
  {
    hide HandleToken, CheckNetwork, Sound;
    HandleTokenIsSound(c, e);
    CheckNetworkIsSound(c, networkUp, e.text);
    CheckNetworkIsSound(HandleToken(c, e).c, networkUp, e.text);
  }

  lemma ServicesAreSound(c: Core, e: Env, s: Service, longRunning: int)
    requires Sound(c)
    ensures Sound(FirestoreRequest(c, e, s, longRunning).c) && Sound(FunctionsRequest(c, e, s).c)
  {
    hide TokenReady, Sound, Steady;
    TokenReadyIsSound(c, e, s.networkUp);
    var t := TokenReady(c, e, s.networkUp).c;
    if !t.processing {
      ServiceIsSound(t, InFirestore(Moment(Ready, false, true)));
      ServiceIsSound(t, InFunctions(Moment(Ready, false, true)));
    }
  }

  /** A service request from its start to its end, or to the loss of its header. */
  lemma ServiceIsSound(c: Core, kind: Kind)
    requires Sound(c) && !c.processing && kind != SigningUp && MayTalk(kind)
    ensures var d := c.(processing := true).Log(Start(kind, true, true, Other));
            Sound(d.(processing := false).Log(Closed)) && Sound(d.Log(HeaderLost))
    ensures Sound(c.Log(Start(kind, true, true, Other)).(processing := false).Log(Closed))
  {
    hide Steady, LeftSet, AllSafe, PhaseOf;
    FreeWhenIdle(c);
    var busy := c.(processing := true);
    SoundIgnores(c, busy);
    StartIsSteady(c, kind, true, Other);
    StartIsSteady(busy, kind, true, Other);
    ClosedIsSound(c.Log(Start(kind, true, true, Other)));
    ClosedIsSound(busy.Log(Start(kind, true, true, Other)));
    LeftIsSound(busy.Log(Start(kind, true, true, Other)), HeaderLost);
  }

  lemma SetAuthTokenIsSound(c: Core, token: seq<bv8>, hasRefresh: bool, t: TokenType, canRenew: bool, n: Net)
    requires Sound(c)
    ensures Sound(SetAuthToken(c, token, hasRefresh, t, canRenew, n))
  {
    hide Renew, HasTwoDots, PhaseOf, LeftSet, Taken, AllSafe, EncodedText, SignedText;
    var refresh := token == [] || (t == CustomToken && !HasTwoDots(token));
    var c2 := c.(status := Ready, step := Begin, tokenType := t, customSet := t == CustomToken && !refresh);
    RenewIsSound(c2, n);
  }

  lemma ActIsSound(c: Core, op: Op)
    requires Sound(c)
    ensures Sound(Act(c, op))
  {
    hide HandleToken, GetIdToken, DeleteIdToken, SendEmail, Renew, FirestoreRequest, FunctionsRequest, SetAuthToken;
    hide PhaseOf, LeftSet, Taken, AllSafe, EncodedText, SignedText;
    var d := c.(message := false);
    match op {
      case Handle(e) => HandleTokenIsSound(c, e);
      case SignUp(n) => GetIdTokenIsSound(d.(tokenType := IdToken), true, n);
      case DeleteUser(own, n) => DeleteIdTokenIsSound(d, own, n);
      case Email(n) => SendEmailIsSound(d, n);
      case RenewNow(n) => RenewIsSound(c, n);
      case UseFirestore(e, s, k) => ServicesAreSound(c, e, s, k);
      case UseFunctions(e, s) => ServicesAreSound(c, e, s, 0);
      case SetToken(token, hasRefresh, t, canRenew, n) => SetAuthTokenIsSound(c, token, hasRefresh, t, canRenew, n);
      case Configure(t, st) =>
      case Reset =>
    }
  }

  /** Whatever is called in whatever order, and whatever the network does: requests start with
      the flag clear, the flag stays set only after one of the three losses, and a request that
      carries the JWT carries what has been made of it since the last answer: for an exchange the
      complete signed JWT or, after an answer, nothing; for a renewal whatever there is. */
  lemma {:induction false} RunIsSound(c: Core, ops: seq<Op>)
    requires Sound(c)
    ensures Sound(Run(c, ops))
    decreases |ops|
  {
    hide Act, Sound;
    if ops != [] && !c.taskRunning {
      ActIsSound(c, ops[0]);
      RunIsSound(Act(c, ops[0]), ops[1..]);
    }
  }

  lemma PowerUpIsSound()
    ensures Sound(FRESH)
  {
  }

  /** From power-up on: the flag is set after a call exactly when the last thing that happened to
      it was one of the three losses. */
  lemma FlagIsSetIff(ops: seq<Op>)
    ensures Run(FRESH, ops).processing <==> LeftSet(Run(FRESH, ops).history)
    ensures AllSafe(Run(FRESH, ops).history)
  {
    PowerUpIsSound();
    RunIsSound(FRESH, ops);
  }
}
