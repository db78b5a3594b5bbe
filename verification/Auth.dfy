/** The token engine: the steps that make a signed JWT, the requests that trade it for a
    token, and the one flag that lets a single request use the network at a time. What the
    network, the clock and the caller's settings contribute to a call is a parameter of it. */
module Auth {
  import Base64Spec

  const DOT: bv8 := 46

  datatype Status = Uninitialized | OnInitialize | OnSigning | OnRequest | OnRefresh | Ready | Error

  datatype TokenType = Undefined | Legacy | IdToken | CustomToken | OAuth2

  datatype Step = Begin | EncodeHeaderPayload | Sign | Exchange

  /** The text of a JSON object has at least its braces. */
  type Json = s: seq<bv8> | |s| >= 2 witness [123, 125]

  type Signature = s: seq<bv8> | |s| == 256 witness seq(256, _ => 0)

  // ------------------------------------------------------------- the history

  /** What a service request finds as it starts. */
  datatype Moment = Moment(status: Status, taskRunning: bool, networkUp: bool)

  datatype Kind =
    | Exchanging | Renewing | Refreshing | SigningIn | SigningUp | Deleting | Mailing
    | InFirestore(at: Moment) | InFunctions(at: Moment)

  /** The credential a request carries. */
  datatype Body = Jwt(text: seq<bv8>) | UserToken | Grant | Other

  datatype Event =
    | Encoded(header: Json, payload: Json)
    | Signed(signature: Signature, digest: bool)
    | SigningFailed
    | Replied
    | Start(kind: Kind, wasFree: bool, held: bool, body: Body)
    | NoNetwork(took: bool)
    | Deleted
    | HeaderLost
    | Closed

  datatype History = Beginning | Then(earlier: History, event: Event)

  /** The fields of the engine. `processing` is the flag that a request is under way,
      `digest` whether the digest to sign is there, `message` whether an error text is held,
      `customSet` whether the caller set a custom token. */
  datatype Core = Core(
    processing: bool, status: Status, tokenType: TokenType, step: Step, jwt: seq<bv8>, digest: bool,
    customSet: bool, message: bool, taskRunning: bool, history: History)
  {
    function Log(e: Event): (c: Core) { this.(history := Then(history, e)) }
  }

  const FRESH: Core := Core(false, Uninitialized, Undefined, Begin, [], false, false, false, false, Beginning)

  datatype Done = Done(c: Core, ok: bool)

  /** What only the caller's settings and the task itself change. */
  predicate SameTask(c: Core, d: Core) {
    d.tokenType == c.tokenType && d.taskRunning == c.taskRunning && d.customSet == c.customSet
  }

  // -------------------------------------------------------------- the errors

  /** An error text that is already there keeps the flag as it is. */
  function SetTokenError(c: Core, failed: bool, text: bool): (r: Core)
    ensures SameTask(c, r)
    ensures !r.processing || (c.processing && c.message && failed)
    ensures r.status == (if failed then Error else Ready) && r.step == c.step && r.jwt == c.jwt
  {
    var c1 := if failed then c.(status := Error) else c.(status := Ready, message := false);
    if c1.message then c1 else c1.(processing := false, message := text).Log(Closed)
  }

  datatype TaskCode = ConnectionLost | TimedOut(httpCode: int) | Completed | ErrorUnnotified

  function HandleTaskError(c: Core, code: TaskCode, text: bool): (r: Done)
    ensures SameTask(c, r.c)
    ensures !r.c.processing && (r.ok <==> code.Completed?)
    ensures r.c.status == if r.ok then Ready else if code.ErrorUnnotified? then c.status else Error
    ensures r.c.step == (if r.ok then Begin else c.step) && r.c.jwt == c.jwt
  {
    var c1 := c.(processing := false).Log(Closed);
    match code
    case ConnectionLost => Done(SetTokenError(c1.(message := false), true, text), false)
    case TimedOut(http) => Done(SetTokenError(if http == 0 then c1 else c1.(message := text), true, text), false)
    case Completed => Done(c1.(message := false, status := Ready, step := Begin), true)
    case ErrorUnnotified => Done(c1, false)
  }

  function CheckNetwork(c: Core, up: bool, text: bool): (r: Core)
    ensures SameTask(c, r)
  {
    if !up && c.status == OnRefresh then SetTokenError(c.(message := false), true, text) else c
  }

  // ------------------------------------------------------------ the requests

  /** How the network treats one request: whether it can be reached, whether the client was
      set up, whether the request was sent and answered, and what the answer says. */
  datatype Net = Net(
    reconnects: bool, initialized: bool, sent: bool, answered: bool, errorField: bool, code: int,
    http: int, clockOld: bool, renewable: bool, text: bool, serverText: bool)
  {
    function ErrorCode(): (e: int) { if errorField then code else 0 }

    predicate Connects() { reconnects && initialized }

    predicate Answered() { Connects() && sent && answered }

    predicate Accepted() { Answered() && ErrorCode() == 0 }
  }

  predicate Requesting(c: Core) { c.status == OnRequest || c.status == OnRefresh || c.processing }

  const NOT_INITIALIZED := -105

  function InitClient(c: Core, status: Status, n: Net): (r: Done)
    ensures SameTask(c, r.c)
    ensures r.ok <==> n.Connects()
    ensures r.c.processing <==> (if !n.reconnects || n.initialized then status != Uninitialized || c.processing else false)
    ensures r.c.status == if n.reconnects && !n.initialized then Error
                          else if status != Uninitialized then status else c.status
    ensures r.c.step == c.step && r.c.jwt == c.jwt
  {
    var took := status != Uninitialized;
    var c1 := if took then c.(status := status, processing := true, message := false) else c;
    if !n.reconnects then Done(c1.Log(NoNetwork(took)), false)
    else if !n.initialized then HandleTaskError(c1, TimedOut(NOT_INITIALIZED), n.text)
    else Done(c1, true)
  }

  predicate TradesJwt(t: TokenType) { t == CustomToken || t == OAuth2 }

  function BodyOf(c: Core, refresh: bool): (b: Body) {
    if c.tokenType == CustomToken then (if c.customSet then UserToken else Jwt(c.jwt))
    else if refresh then Grant else Jwt(c.jwt)
  }

  /** What an answer to a token request changes, before the request is closed. */
  function AfterReply(c: Core, n: Net): (r: Core)
    ensures SameTask(c, r) && r.jwt == [] && r.status == (if n.errorField then Error else c.status)
    ensures r.step == if n.ErrorCode() != 0 && !c.customSet && TradesJwt(c.tokenType) then EncodeHeaderPayload else c.step
  {
    var c1 := c.(jwt := []).Log(Replied);
    var c2 := if n.errorField then c1.(status := Error) else c1;
    var c3 := if n.ErrorCode() != 0 && !c.customSet && TradesJwt(c.tokenType)
              then c2.(step := EncodeHeaderPayload) else c2;
    c3.(message := n.serverText)
  }

  /** The rest of a token request, from sending it on. */
  function AwaitTokens(c: Core, n: Net): (r: Done) {
    if !n.sent then HandleTaskError(c, ConnectionLost, n.text)
    else if !n.answered then HandleTaskError(c, TimedOut(n.http), n.text)
    else HandleTaskError(AfterReply(c, n), if n.ErrorCode() == 0 then Completed else ErrorUnnotified, n.text)
  }

  function RequestTokens(c: Core, refresh: bool, n: Net): (r: Done)
    requires TradesJwt(c.tokenType)
    ensures SameTask(c, r.c)
    ensures c.processing ==> r.c == c
    ensures !c.processing ==> (r.c.processing <==> !RequestBlocked(c, refresh, n) && !n.reconnects)
    ensures r.ok <==> !RequestBlocked(c, refresh, n) && n.Accepted()
    ensures !RequestBlocked(c, refresh, n) ==>
              && r.c.status == (if r.ok then Ready else if n.reconnects then Error else if refresh then OnRefresh else OnRequest)
              && r.c.step == (if r.ok then Begin else if n.Answered() && !c.customSet then EncodeHeaderPayload else c.step)
              && r.c.jwt == (if n.Answered() then [] else c.jwt)
  {
    hide InitClient, HandleTaskError, AfterReply;
    if RequestBlocked(c, refresh, n) then Done(c, false)
    else
      var i := InitClient(c, if refresh then OnRefresh else OnRequest, n);
      if !i.ok then Done(i.c, false)
      else
        var kind := if refresh then Renewing else Exchanging;
        AwaitTokens(i.c.Log(Start(kind, !c.processing, i.c.processing, BodyOf(i.c, refresh))), n)
  }

  predicate RequestBlocked(c: Core, refresh: bool, n: Net) {
    Requesting(c) || (n.clockOld && !refresh && !c.customSet)
  }

  function RefreshToken(c: Core, n: Net): (r: Done)
    ensures c.processing ==> r.c == c
    ensures !c.processing ==> (r.c.processing <==> !Requesting(c) && n.renewable && !n.reconnects)
    ensures r.ok <==> !Requesting(c) && n.renewable && n.Accepted()
    ensures !Requesting(c) && n.renewable ==>
              && r.c.status == (if r.ok then Ready else if n.reconnects then Error else OnRefresh)
              && r.c.step == (if r.ok then Begin else c.step) && r.c.jwt == c.jwt
  {
    if Requesting(c) || !n.renewable then Done(c, false)
    else
      var i := InitClient(c, OnRefresh, n);
      if !i.ok then Done(i.c, false)
      else
        var c1 := i.c.Log(Start(Refreshing, !c.processing, i.c.processing, Grant));
        if !n.sent then HandleTaskError(c1, ConnectionLost, n.text)
        else if !n.answered then HandleTaskError(c1, TimedOut(n.http), n.text)
        else
          var c2 := c1.(status := if n.errorField then Error else c1.status, message := n.serverText);
          HandleTaskError(c2, if n.ErrorCode() == 0 then Completed else ErrorUnnotified, n.text)
  }

  function TakeIdToken(c: Core, createUser: bool, n: Net): (r: Done)
    ensures !r.c.processing && (r.ok <==> n.ErrorCode() == 0)
    ensures r.c.status == (if r.ok then Ready else Error) && r.c.step == (if r.ok then Begin else c.step) && r.c.jwt == c.jwt
    ensures !createUser ==> SameTask(c, r.c)
    ensures r.c.tokenType == if createUser && r.ok then IdToken else c.tokenType
  {
    var c1 := if createUser then c
              else c.(status := if n.errorField then Error else c.status, message := n.serverText);
    if n.ErrorCode() == 0 then HandleTaskError(if createUser then c1.(tokenType := IdToken) else c1, Completed, n.text)
    else HandleTaskError(c1, TimedOut(n.http), n.text)
  }

  function GetIdToken(c: Core, createUser: bool, n: Net): (r: Done)
    ensures !createUser ==> SameTask(c, r.c)
    ensures c.processing ==> r.c == c
    ensures r.c.tokenType == if createUser && r.ok then IdToken else c.tokenType
    ensures !c.processing ==> (r.c.processing <==> !Requesting(c) && !createUser && !n.reconnects)
    ensures r.ok <==> !Requesting(c) && n.Accepted()
    ensures !Requesting(c) ==>
              && r.c.status == (if r.ok then Ready else if n.reconnects then Error else if createUser then c.status else OnRequest)
              && r.c.step == (if r.ok then Begin else c.step) && r.c.jwt == c.jwt
  {
    if Requesting(c) then Done(c, false)
    else
      var i := InitClient(c, if createUser then Uninitialized else OnRequest, n);
      if !i.ok then Done(i.c, false)
      else
        var kind := if createUser then SigningUp else SigningIn;
        var c1 := i.c.Log(Start(kind, !c.processing, i.c.processing, Other));
        if !n.sent then HandleTaskError(c1, ConnectionLost, n.text)
        else if !n.answered then HandleTaskError(c1, TimedOut(n.http), n.text)
        else TakeIdToken(c1, createUser, n)
  }

  /** The caller's own token is gone after the deletion; the request is never closed then. */
  function DeleteIdToken(c: Core, own: bool, n: Net): (r: Done)
    ensures c.processing ==> r.c == c
    ensures !c.processing ==> (r.c.processing <==> !Requesting(c) && n.Accepted())
    ensures r.ok <==> !Requesting(c) && n.Accepted()
    ensures !Requesting(c) ==>
              && r.c.status == (if r.ok || !n.reconnects then c.status else Error)
              && r.c.step == (if r.ok && own then Begin else c.step) && r.c.jwt == c.jwt
    ensures r.c.tokenType == if r.ok && own then Undefined else c.tokenType
  {
    if Requesting(c) then Done(c, false)
    else
      var i := InitClient(c, Uninitialized, n);
      if !i.ok then Done(i.c, false)
      else
        var c1 := i.c.(processing := true).Log(Start(Deleting, !c.processing, true, Other));
        if !n.sent then HandleTaskError(c1, ConnectionLost, n.text)
        else if n.answered && n.ErrorCode() == 0
        then Done((if own then c1.(step := Begin, tokenType := Undefined) else c1).Log(Deleted), true)
        else HandleTaskError(c1, TimedOut(n.http), n.text)
  }

  function SendEmail(c: Core, n: Net): (r: Done)
    ensures c.processing ==> r.c == c
    ensures !c.processing ==> !r.c.processing
    ensures r.ok <==> !c.processing && n.Accepted()
  {
    if c.processing then Done(c, false)
    else
      var i := InitClient(c, Uninitialized, n);
      if !i.ok then Done(i.c, false)
      else
        var c1 := i.c.(processing := true).Log(Start(Mailing, !c.processing, true, Other));
        if !n.sent then HandleTaskError(c1, ConnectionLost, n.text)
        else if !n.answered then HandleTaskError(c1, TimedOut(n.http), n.text)
        else HandleTaskError(c1, if n.ErrorCode() == 0 then Completed else ErrorUnnotified, n.text)
  }

  // ------------------------------------------------------------ making a JWT

  function EncodedText(header: Json, payload: Json): (s: seq<bv8>) {
    Base64Spec.UrlEncode(header) + [DOT] + Base64Spec.UrlEncode(payload) + [DOT]
  }

  /** The signed JWT of section 7.1 of RFC 7515: header, payload and signature. */
  function SignedText(header: Json, payload: Json, signature: Signature): (s: seq<bv8>) {
    EncodedText(header, payload) + Base64Spec.UrlEncode(signature)
  }

  datatype Signing = NoKey | NotRsa | SignFailed | Signs(signature: Signature)

  function EncodeJwt(c: Core, header: Json, payload: Json): (r: Core) {
    c.(status := OnSigning, message := false, jwt := EncodedText(header, payload), digest := true).Log(Encoded(header, payload))
  }

  /** An attempt to sign uses the digest up, whether it succeeds or not; without a usable key
      there is no attempt. */
  function SignJwt(c: Core, signing: Signing, text: bool): (r: Done)
    ensures SameTask(c, r.c)
  {
    var c1 := c.(status := OnSigning);
    match signing
    case Signs(s) => Done(c1.(jwt := c1.jwt + Base64Spec.UrlEncode(s), digest := false).Log(Signed(s, c.digest)), true)
    case SignFailed => Done(SetTokenError(c1.(digest := false).Log(SigningFailed), true, text).(message := true), false)
    case _ => Done(SetTokenError(c1, true, text).(message := true), false)
  }

  /** What one turn of the token task meets: the clock, the material for the JWT, the timers
      and the network. */
  datatype Round = Round(
    clockReady: bool, certificate: bool, syncTimedOut: bool, clockReadyNow: bool,
    beginDue: bool, header: Json, payload: Json, signing: Signing, exchangeDue: bool, late: bool,
    net: Net, networkUp: bool, callbackDue: bool, text: bool)

  /** The end of a request made by the task: the network is checked again. */
  function AfterRequest(c: Core, r: Round): (d: Core)
    ensures SameTask(c, d)
  {
    var c1 := CheckNetwork(c, r.networkUp, r.text);
    if !r.networkUp && r.callbackDue then HandleTaskError(c1, ConnectionLost, r.text).c else c1
  }

  /** One turn of the JWT steps; `ok` when the task goes on. */
  function JwtRound(c: Core, r: Round, clock: bool): (d: Done)
    requires TradesJwt(c.tokenType)
    ensures SameTask(c, d.c)
  {
    hide RequestTokens, SignJwt, AfterRequest, EncodedText;
    match c.step
    case Begin => Done(if r.beginDue && clock then c.(step := EncodeHeaderPayload) else c, true)
    case EncodeHeaderPayload => Done(EncodeJwt(c, r.header, r.payload).(step := Sign), true)
    case Sign =>
      var s := SignJwt(c, r.signing, r.text);
      Done(if s.ok then s.c.(step := Exchange) else s.c, true)
    case Exchange =>
      if !r.exchangeDue then Done(c, true)
      else
        var q := RequestTokens(c, false, r.net);
        var c1 := q.c.(step := if q.ok || r.late then Begin else Exchange);
        Done(AfterRequest(c1, r), false)
  }

  predicate NeedsClock(c: Core, r: Round) { r.certificate || TradesJwt(c.tokenType) }

  /** Waiting for the clock; `ok` when the turn can proceed. */
  function AwaitClock(c: Core, r: Round): (d: Done)
    ensures SameTask(c, d.c)
  {
    if r.clockReady || !NeedsClock(c, r) then Done(c, true)
    else
      var c1 := if r.syncTimedOut then SetTokenError(c.(message := false), true, r.text).(status := OnInitialize) else c;
      Done(c1, r.clockReadyNow)
  }

  predicate Running(t: TokenType) { t == IdToken || TradesJwt(t) }

  /** One turn of the task; `ok` when it goes on. */
  function TaskRound(c: Core, r: Round): (d: Done)
    requires Running(c.tokenType)
    ensures SameTask(c, d.c)
  {
    hide AwaitClock, GetIdToken, AfterRequest, JwtRound;
    var w := AwaitClock(c, r);
    if !w.ok then w
    else if c.tokenType == IdToken then
      var q := GetIdToken(w.c, false, r.net);
      Done(AfterRequest(q.c, r), !q.ok)
    else JwtRound(w.c, r, r.clockReady || r.clockReadyNow)
  }

  /** The turns of the task, as far as the script goes: a task that has not ended by then is
      still running. */
  function TaskRun(c: Core, rounds: seq<Round>): (r: Core)
    requires Running(c.tokenType)
    ensures r.tokenType == c.tokenType
    decreases |rounds|
  {
    hide TaskRound;
    if c.status == Ready then c.(taskRunning := false)
    else if rounds == [] then c
    else
      var d := TaskRound(c, rounds[0]);
      if d.ok then TaskRun(d.c, rounds[1..]) else d.c.(taskRunning := false)
  }

  function TokenProcessingTask(c: Core, sessionOpen: bool, rounds: seq<Round>): (r: Core)
    requires Running(c.tokenType)
    ensures r.tokenType == c.tokenType
  {
    if sessionOpen || c.taskRunning then c else TaskRun(c.(taskRunning := true), rounds)
  }

  // ---------------------------------------------------------- handling a token

  /** What a call of the handler meets: the caller's settings, the age of the token, the
      timers, and what its task or its request meets. */
  datatype Env = Env(
    testMode: bool, expired: bool, issued: bool, requestDue: bool, refreshDue: bool,
    anonymousIdToken: bool, accessSet: bool, hasRefreshToken: bool, badKeyFile: bool,
    sessionOpen: bool, rounds: seq<Round>, net: Net, text: bool)

  predicate IsAuthToken(t: TokenType, oauth: bool) {
    t == IdToken || t == CustomToken || (oauth && t == OAuth2)
  }

  function RenewIdToken(c: Core, e: Env): (d: Done) {
    if !e.requestDue then Done(c, false)
    else if e.anonymousIdToken then Done(c, true)
    else if c.processing || !e.refreshDue then Done(c, false)
    else RefreshToken(c, e.net)
  }

  function PrepareTask(c: Core, e: Env): (r: Core)
    ensures r.tokenType == c.tokenType
  {
    if c.step != Begin then c
    else
      var c1 := if e.badKeyFile then c.(status := Uninitialized) else c;
      if c1.status != OnInitialize then c1.(status := OnInitialize, message := false) else c1
  }

  function UseCustomToken(c: Core, e: Env): (d: Done) {
    if !e.expired then Done(c.(status := Ready), true)
    else
      var c1 := c.(status := Uninitialized, tokenType := CustomToken);
      if !e.requestDue then Done(c1, false)
      else
        var q := RequestTokens(c1, false, e.net);
        if q.ok then Done(q.c.(customSet := false), true) else q
  }

  function HandleToken(c: Core, e: Env): (d: Done) {
    if e.testMode then Done(SetTokenError(c, false, e.text), true)
    else if c.customSet then UseCustomToken(c, e)
    else if e.accessSet && !e.expired then Done(c.(status := Ready), true)
    else if IsAuthToken(c.tokenType, true) && e.expired then
      if e.issued && IsAuthToken(c.tokenType, false) then RenewIdToken(c, e)
      else if c.tokenType == IdToken then
        Done(if e.requestDue then TokenProcessingTask(c, e.sessionOpen, e.rounds) else c, false)
      else if e.hasRefreshToken then RequestTokens(c, true, e.net)
      else
        var c1 := if c.taskRunning then c else TokenProcessingTask(PrepareTask(c, e), e.sessionOpen, e.rounds);
        Done(c1, c1.status == Ready)
    else if c.tokenType == Legacy then Done(SetTokenError(c, false, e.text), true)
    else
      var c1 := if c.tokenType == Undefined then SetTokenError(c.(message := false), true, e.text) else c;
      Done(c1, c1.status == Ready)
  }

  /** The test other requests make before they start. */
  function TokenReady(c: Core, e: Env, networkUp: bool): (d: Done)
    ensures d.ok <==> networkUp && d.c.status == Ready && !d.c.taskRunning
  {
    hide HandleToken;
    var c1 := if IsAuthToken(c.tokenType, true) && e.expired then HandleToken(c, e).c else c;
    if c1.taskRunning then Done(c1, false)
    else
      var c2 := CheckNetwork(c1, networkUp, e.text);
      Done(c2, networkUp && c2.status == Ready)
  }

  // ------------------------------------------------ the requests of the services

  /** What a service request meets beyond the token: its own connection, whether the header
      went out, and whether the exchange succeeded. */
  datatype Service = Service(connected: bool, networkUp: bool, headerSent: bool, succeeds: bool)

  /** What is needed beyond a ready token to start a request. */
  predicate MayStart(c: Core, s: Service) {
    s.connected && s.networkUp && c.status == Ready && !c.taskRunning && !c.processing
  }

  function FirestoreRequest(c: Core, e: Env, s: Service, longRunning: int): (d: Done)
    ensures d.c.processing <==> (if s.connected then TokenReady(c, e, s.networkUp).c else c).processing
    ensures
      var t := TokenReady(c, e, s.networkUp).c;
      if MayStart(t, s) && longRunning <= 0 then
        d.ok == s.succeeds && Started(t.history, InFirestore(Moment(Ready, false, true)), Closed, d.c.history)
      else !d.ok && d.c == if s.connected then t else c
  {
    if !s.connected then Done(c, false)
    else
      var t := TokenReady(c, e, s.networkUp);
      if !t.ok || longRunning > 0 || t.c.processing then Done(t.c, false)
      else
        var kind := InFirestore(Moment(t.c.status, t.c.taskRunning, s.networkUp));
        Done(t.c.Log(Start(kind, !t.c.processing, true, Other)).(processing := false).Log(Closed), s.succeeds)
  }

  /** A request has started with the flag clear, held it, and come to its end. */
  predicate Started(earlier: History, kind: Kind, end: Event, h: History) {
    h == Then(Then(earlier, Start(kind, true, true, Other)), end)
  }

  function FunctionsRequest(c: Core, e: Env, s: Service): (d: Done)
    ensures
      var t := TokenReady(c, e, s.networkUp).c;
      if MayStart(t, s) then
        && (d.c.processing <==> !s.headerSent) && (d.ok <==> s.headerSent && s.succeeds)
        && Started(t.history, InFunctions(Moment(Ready, false, true)), if s.headerSent then Closed else HeaderLost, d.c.history)
      else !d.ok && d.c == if s.connected then t else c
  {
    if !s.connected then Done(c, false)
    else
      var t := TokenReady(c, e, s.networkUp);
      if !t.ok || t.c.processing then Done(t.c, false)
      else
        var kind := InFunctions(Moment(t.c.status, t.c.taskRunning, s.networkUp));
        var c1 := t.c.(processing := true).Log(Start(kind, !t.c.processing, true, Other));
        if !s.headerSent then Done(c1.Log(HeaderLost), false)
        else Done(c1.(processing := false).Log(Closed), s.succeeds)
  }

  // --------------------------------------------------------- the caller's settings

  function FindDot(s: seq<bv8>, from: nat): (i: nat)
    requires from <= |s|
    ensures from <= i <= |s|
    decreases |s| - from
  {
    if from == |s| || s[from] == DOT then from else FindDot(s, from + 1)
  }

  /** The test that tells a custom token from a refresh token. */
  predicate HasTwoDots(s: seq<bv8>) {
    var i := FindDot(s, 0);
    i < |s| && FindDot(s, i + 1) < |s|
  }

  function Renew(c: Core, n: Net): (r: Core) {
    if c.tokenType == OAuth2 then RequestTokens(c, true, n).c else RefreshToken(c, n).c
  }

  function SetAuthToken(c: Core, token: seq<bv8>, hasRefresh: bool, tokenType: TokenType, canRenew: bool, n: Net): (r: Core) {
    var c1 := c.(customSet := false, status := Uninitialized);
    if token == [] && !hasRefresh then c1
    else
      var refresh := token == [] || (tokenType == CustomToken && !HasTwoDots(token));
      var c2 := c1.(status := Ready, step := Begin, tokenType := tokenType,
                    customSet := tokenType == CustomToken && !refresh);
      if refresh && canRenew then Renew(c2, n) else c2
  }

  // ------------------------------------------------------------------- runs

  datatype Op =
    | Handle(e: Env)
    | SignUp(n: Net)
    | DeleteUser(own: bool, n: Net)
    | Email(n: Net)
    | RenewNow(n: Net)
    | UseFirestore(e: Env, s: Service, longRunning: int)
    | UseFunctions(e: Env, s: Service)
    | SetToken(token: seq<bv8>, hasRefresh: bool, tokenType: TokenType, canRenew: bool, n: Net)
    | Configure(newType: TokenType, newStatus: Status)
    | Reset

  function Act(c: Core, op: Op): (r: Core) {
    match op
    case Handle(e) => HandleToken(c, e).c
    case SignUp(n) => GetIdToken(c.(message := false, tokenType := IdToken), true, n).c
    case DeleteUser(own, n) => DeleteIdToken(c.(message := false), own, n).c
    case Email(n) => SendEmail(c.(message := false), n).c
    case RenewNow(n) => Renew(c, n)
    case UseFirestore(e, s, k) => FirestoreRequest(c, e, s, k).c
    case UseFunctions(e, s) => FunctionsRequest(c, e, s).c
    case SetToken(token, hasRefresh, t, canRenew, n) => SetAuthToken(c, token, hasRefresh, t, canRenew, n)
    case Configure(t, st) => c.(message := false, tokenType := t, status := st)
    case Reset => c.(customSet := false, status := Uninitialized)
  }

  /** Nothing else happens while the task is still running. */
  function Run(c: Core, ops: seq<Op>): (r: Core)
    decreases |ops|
  {
    if ops == [] || c.taskRunning then c else Run(Act(c, ops[0]), ops[1..])
  }
}
