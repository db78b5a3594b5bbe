/** The token engine as an object: its calls update the fields in place, and each leaves the
    state that the transition of the same name describes. */
module AuthEngine {
  import opened Auth
  import Base64Spec

  class Engine {
    var processing: bool
    var status: Status
    var tokenType: TokenType
    var step: Step
    var jwt: seq<bv8>
    var digest: bool
    var customSet: bool
    var message: bool
    var taskRunning: bool
    ghost var history: History

    ghost function State(): (c: Core)
      reads this
    {
      Core(processing, status, tokenType, step, jwt, digest, customSet, message, taskRunning, history)
    }

    constructor ()
      ensures State() == FRESH
    {
      processing, status, tokenType, step := false, Uninitialized, Undefined, Begin;
      jwt, digest, customSet, message, taskRunning := [], false, false, false, false;
      history := Beginning;
    }

    ghost method Log(e: Event)
      modifies this`history
      ensures history == Then(old(history), e)
    {
      history := Then(history, e);
    }

    method SetError(failed: bool, text: bool)
      modifies this
      ensures State() == SetTokenError(old(State()), failed, text)
    {
      if failed {
        status := Error;
      } else {
        message := false;
        status := Ready;
      }
      if !message {
        processing := false;
        message := text;
        Log(Closed);
      }
    }

    method HandleError(code: TaskCode, text: bool) returns (ok: bool)
      modifies this
      ensures Done(State(), ok) == HandleTaskError(old(State()), code, text)
    {
      hide SetTokenError;
      processing := false;
      Log(Closed);
      ok := false;
      match code {
        case ConnectionLost =>
          message := false;
          SetError(true, text);
        case TimedOut(httpCode) =>
          if httpCode != 0 { message := text; }
          SetError(true, text);
        case Completed =>
          message := false;
          status := Ready;
          step := Begin;
          ok := true;
        case ErrorUnnotified =>
      }
    }

    method Reconnect(up: bool, text: bool)
      modifies this
      ensures State() == CheckNetwork(old(State()), up, text)
    {
      if !up && status == OnRefresh {
        message := false;
        SetError(true, text);
      }
    }

    method Init(newStatus: Status, n: Net) returns (ok: bool)
      modifies this
      ensures Done(State(), ok) == InitClient(old(State()), newStatus, n)
    {
      if newStatus != Uninitialized {
        status := newStatus;
        processing := true;
        message := false;
      }
      if !n.reconnects {
        Log(NoNetwork(newStatus != Uninitialized));
        return false;
      }
      if !n.initialized {
        ok := HandleError(TimedOut(NOT_INITIALIZED), n.text);
        return;
      }
      return true;
    }

    method TakeReply(n: Net)
      modifies this
      ensures State() == AfterReply(old(State()), n)
    {
      jwt := [];
      Log(Replied);
      if n.errorField { status := Error; }
      if n.ErrorCode() != 0 && !customSet && TradesJwt(tokenType) { step := EncodeHeaderPayload; }
      message := n.serverText;
    }

    method RequestTokens(refresh: bool, n: Net) returns (ok: bool)
      requires TradesJwt(tokenType)
      modifies this
      ensures Done(State(), ok) == Auth.RequestTokens(old(State()), refresh, n)
    {
      hide InitClient, Auth.AwaitTokens, BodyOf;
      if status == OnRequest || status == OnRefresh || (n.clockOld && !refresh && !customSet) || processing {
        return false;
      }
      ghost var wasFree := !processing;
      var connected := Init(if refresh then OnRefresh else OnRequest, n);
      if !connected { return false; }
      Log(Start(if refresh then Renewing else Exchanging, wasFree, processing, BodyOf(State(), refresh)));
      ok := AwaitTokens(n);
    }

    method AwaitTokens(n: Net) returns (ok: bool)
      modifies this
      ensures Done(State(), ok) == Auth.AwaitTokens(old(State()), n)
    {
      hide HandleTaskError, AfterReply;
      if !n.sent {
        ok := HandleError(ConnectionLost, n.text);
      } else if !n.answered {
        ok := HandleError(TimedOut(n.http), n.text);
      } else {
        TakeReply(n);
        ok := HandleError(if n.ErrorCode() == 0 then Completed else ErrorUnnotified, n.text);
      }
    }

    method RefreshToken(n: Net) returns (ok: bool)
      modifies this
      ensures Done(State(), ok) == Auth.RefreshToken(old(State()), n)
    {
      hide InitClient, HandleTaskError;
      if status == OnRequest || status == OnRefresh || processing { return false; }
      if !n.renewable { return false; }
      ghost var wasFree := !processing;
      var connected := Init(OnRefresh, n);
      if !connected { return false; }
      Log(Start(Refreshing, wasFree, processing, Grant));
      if !n.sent {
        ok := HandleError(ConnectionLost, n.text);
      } else if !n.answered {
        ok := HandleError(TimedOut(n.http), n.text);
      } else {
        if n.errorField { status := Error; }
        message := n.serverText;
        ok := HandleError(if n.ErrorCode() == 0 then Completed else ErrorUnnotified, n.text);
      }
    }

    method GetIdToken(createUser: bool, n: Net) returns (ok: bool)
      modifies this
      ensures Done(State(), ok) == Auth.GetIdToken(old(State()), createUser, n)
    {
      hide InitClient, HandleTaskError, Auth.TakeIdToken;
      if status == OnRequest || status == OnRefresh || processing { return false; }
      ghost var wasFree := !processing;
      var connected := Init(if createUser then Uninitialized else OnRequest, n);
      if !connected { return false; }
      Log(Start(if createUser then SigningUp else SigningIn, wasFree, processing, Other));
      if !n.sent {
        ok := HandleError(ConnectionLost, n.text);
        return;
      }
      if n.answered {
        ok := TakeIdToken(createUser, n);
      } else {
        ok := HandleError(TimedOut(n.http), n.text);
      }
    }

    method TakeIdToken(createUser: bool, n: Net) returns (ok: bool)
      modifies this
      ensures Done(State(), ok) == Auth.TakeIdToken(old(State()), createUser, n)
    {
      hide HandleTaskError;
      if !createUser {
        if n.errorField { status := Error; }
        message := n.serverText;
      }
      if n.ErrorCode() == 0 {
        if createUser { tokenType := IdToken; }
        ok := HandleError(Completed, n.text);
        return;
      }
      ok := HandleError(TimedOut(n.http), n.text);
    }

    method DeleteIdToken(own: bool, n: Net) returns (ok: bool)
      modifies this
      ensures Done(State(), ok) == Auth.DeleteIdToken(old(State()), own, n)
    {
      hide InitClient, HandleTaskError;
      if status == OnRequest || status == OnRefresh || processing { return false; }
      ghost var wasFree := !processing;
      var connected := Init(Uninitialized, n);
      if !connected { return false; }
      processing := true;
      Log(Start(Deleting, wasFree, processing, Other));
      if !n.sent {
        ok := HandleError(ConnectionLost, n.text);
        return;
      }
      if n.answered && n.ErrorCode() == 0 {
        if own {
          step := Begin;
          tokenType := Undefined;
        }
        Log(Deleted);
        return true;
      }
      ok := HandleError(TimedOut(n.http), n.text);
    }

    method HandleEmailSending(n: Net) returns (ok: bool)
      modifies this
      ensures Done(State(), ok) == SendEmail(old(State()), n)
    {
      hide InitClient, HandleTaskError;
      if processing { return false; }
      ghost var wasFree := !processing;
      var connected := Init(Uninitialized, n);
      if !connected { return false; }
      processing := true;
      Log(Start(Mailing, wasFree, processing, Other));
      if !n.sent {
        ok := HandleError(ConnectionLost, n.text);
      } else if !n.answered {
        ok := HandleError(TimedOut(n.http), n.text);
      } else {
        ok := HandleError(if n.ErrorCode() == 0 then Completed else ErrorUnnotified, n.text);
      }
    }

    /** Appends to the JWT what its step makes; the buffers of the encodings are in the
        base64 modules. */
    method CreateJwt(header: Json, payload: Json, signing: Signing, text: bool) returns (ok: bool)
      requires step == EncodeHeaderPayload || step == Sign
      modifies this
      ensures step == old(step)
      ensures old(step) == EncodeHeaderPayload ==> ok && State() == EncodeJwt(old(State()), header, payload)
      ensures old(step) == Sign ==> Done(State(), ok) == SignJwt(old(State()), signing, text)
    {
      hide EncodeJwt, SignJwt;
      if step == EncodeHeaderPayload {
        EncodeParts(header, payload);
        return true;
      }
      ok := AppendSignature(signing, text);
    }

    method EncodeParts(header: Json, payload: Json)
      modifies this
      ensures step == old(step) && State() == EncodeJwt(old(State()), header, payload)
    {
      hide Base64Spec.UrlEncode;
      status := OnSigning;
      message := false;
      jwt := [];
      var encHeadPayload := Base64Spec.UrlEncode(header);
      encHeadPayload := encHeadPayload + [DOT];
      encHeadPayload := encHeadPayload + Base64Spec.UrlEncode(payload);
      digest := true;
      jwt := encHeadPayload;
      jwt := jwt + [DOT];
      Log(Encoded(header, payload));
    }

    method AppendSignature(signing: Signing, text: bool) returns (ok: bool)
      requires step == Sign
      modifies this
      ensures step == old(step) && Done(State(), ok) == SignJwt(old(State()), signing, text)
    {
      hide Base64Spec.UrlEncode, SetTokenError;
      status := OnSigning;
      if signing.Signs? || signing.SignFailed? {
        ghost var signed := digest;
        digest := false;
        if signing.Signs? {
          jwt := jwt + Base64Spec.UrlEncode(signing.signature);
          Log(Signed(signing.signature, signed));
          return true;
        }
        Log(SigningFailed);
      }
      SetError(true, text);
      message := true;
      return false;
    }

    /** One turn of the task; false when the task ends with it. */
    method DoRound(r: Round) returns (again: bool)
      requires Running(tokenType)
      modifies this
      ensures Done(State(), again) == TaskRound(old(State()), r)
    {
      hide Auth.GetIdToken, Auth.RequestTokens, SetTokenError, HandleTaskError, EncodedText, EncodeJwt, SignJwt, CheckNetwork;
      var clock := r.clockReady;
      if !clock && (r.certificate || tokenType == OAuth2 || tokenType == CustomToken) {
        if r.syncTimedOut {
          message := false;
          SetError(true, r.text);
          status := OnInitialize;
        }
        if !r.clockReadyNow { return false; }
        clock := true;
      }
      if tokenType == IdToken {
        var signedIn := GetIdToken(false, r.net);
        FinishRequest(r);
        return !signedIn;
      }
      again := DoStep(r, clock || r.clockReadyNow);
    }

    method FinishRequest(r: Round)
      modifies this
      ensures State() == AfterRequest(old(State()), r)
    {
      hide CheckNetwork, HandleTaskError;
      Reconnect(r.networkUp, r.text);
      if !r.networkUp && r.callbackDue {
        var _ := HandleError(ConnectionLost, r.text);
      }
    }

    method DoStep(r: Round, clock: bool) returns (again: bool)
      requires TradesJwt(tokenType)
      modifies this
      ensures Done(State(), again) == JwtRound(old(State()), r, clock)
    {
      hide Auth.RequestTokens, AfterRequest, EncodedText, SignJwt, SetTokenError;
      again := true;
      if step == Begin {
        if r.beginDue && clock { step := EncodeHeaderPayload; }
      } else if step == EncodeHeaderPayload {
        var made := CreateJwt(r.header, r.payload, r.signing, r.text);
        if made { step := Sign; }
      } else if step == Sign {
        var made := CreateJwt(r.header, r.payload, r.signing, r.text);
        if made { step := Exchange; }
      } else if r.exchangeDue {
        var ret := RequestTokens(false, r.net);
        step := if ret || r.late then Begin else Exchange;
        FinishRequest(r);
        again := false;
      }
    }

    /** The loop of the task, for as many turns as the script describes: it has ended when
        `taskRunning` is false again. */
    method TokenProcessingTask(sessionOpen: bool, rounds: seq<Round>)
      requires Running(tokenType)
      modifies this
      ensures State() == Auth.TokenProcessingTask(old(State()), sessionOpen, rounds)
    {
      hide TaskRound;
      if sessionOpen { return; }
      if taskRunning { return; }
      taskRunning := true;
      ghost var start := State();
      var k := 0;
      var ret := false;
      while !ret && status != Ready && k < |rounds|
        invariant 0 <= k <= |rounds| && Running(tokenType)
        invariant TaskRun(start, rounds) == if ret then State().(taskRunning := false) else TaskRun(State(), rounds[k..])
      {
        assert rounds[k..][0] == rounds[k] && rounds[k..][1..] == rounds[k + 1..];
        var again := DoRound(rounds[k]);
        k := k + 1;
        ret := !again;
      }
      if ret || status == Ready { taskRunning := false; }
    }

    /** The whole handler, down to the task and the requests it makes. */
    method HandleToken(e: Env) returns (ok: bool)
      modifies this
      ensures Done(State(), ok) == Auth.HandleToken(old(State()), e)
    {
      hide Auth.RequestTokens, Auth.RefreshToken, TaskRun, SetTokenError;
      if e.testMode {
        SetError(false, e.text);
        return true;
      }
      if customSet {
        if e.expired {
          status := Uninitialized;
          tokenType := CustomToken;
          ok := false;
          if e.requestDue {
            ok := RequestTokens(false, e.net);
            if ok { customSet := false; }
          }
          return;
        }
        status := Ready;
        return true;
      } else if e.accessSet && !e.expired {
        status := Ready;
        return true;
      }
      if IsAuthToken(tokenType, true) && e.expired {
        ok := HandleExpired(e);
        return;
      }
      if tokenType == Legacy {
        SetError(false, e.text);
        return true;
      }
      if tokenType == Undefined {
        message := false;
        SetError(true, e.text);
      }
      return status == Ready;
    }

    method HandleExpired(e: Env) returns (ok: bool)
      requires !e.testMode && !customSet && e.expired && IsAuthToken(tokenType, true)
      modifies this
      ensures Done(State(), ok) == Auth.HandleToken(old(State()), e)
    {
      hide Auth.RequestTokens, Auth.RefreshToken, TaskRun, SetTokenError;
      if e.issued && tokenType != OAuth2 {
        if e.requestDue {
          if e.anonymousIdToken { return true; }
          if processing { return false; }
          if e.refreshDue {
            ok := RefreshToken(e.net);
            return;
          }
        }
        return false;
      }
      if tokenType == IdToken {
        if e.requestDue { TokenProcessingTask(e.sessionOpen, e.rounds); }
        return false;
      }
      if e.hasRefreshToken {
        ok := RequestTokens(true, e.net);
        return;
      }
      if !taskRunning {
        if step == Begin {
          if e.badKeyFile { status := Uninitialized; }
          if status != OnInitialize {
            status := OnInitialize;
            message := false;
          }
        }
        TokenProcessingTask(e.sessionOpen, e.rounds);
      }
      return status == Ready;
    }

    /** The test other requests make before they start: handle an expired token, then look at
        the network. While the task is still running nothing more happens. */
    method CheckReady(e: Env, networkUp: bool) returns (ready: bool)
      modifies this
      ensures Done(State(), ready) == TokenReady(old(State()), e, networkUp)
    {
      hide Auth.HandleToken, CheckNetwork;
      if IsAuthToken(tokenType, true) && e.expired {
        var _ := HandleToken(e);
      }
      if taskRunning { return false; }
      Reconnect(networkUp, e.text);
      return networkUp && status == Ready;
    }

    method SendFirestore(e: Env, s: Service, longRunning: int) returns (ok: bool)
      modifies this
      ensures Done(State(), ok) == FirestoreRequest(old(State()), e, s, longRunning)
    {
      hide TokenReady;
      if !s.connected { return false; }
      var ready := CheckReady(e, s.networkUp);
      if !ready { return false; }
      if longRunning > 0 { return false; }
      if processing { return false; }
      ghost var wasFree := !processing;
      processing := true;
      Log(Start(InFirestore(Moment(status, taskRunning, s.networkUp)), wasFree, processing, Other));
      processing := false;
      Log(Closed);
      return s.succeeds;
    }

    method SendFunctions(e: Env, s: Service) returns (ok: bool)
      modifies this
      ensures Done(State(), ok) == FunctionsRequest(old(State()), e, s)
    {
      hide TokenReady;
      if !s.connected { return false; }
      var ready := CheckReady(e, s.networkUp);
      if !ready { return false; }
      if processing { return false; }
      ghost var wasFree := !processing;
      processing := true;
      Log(Start(InFunctions(Moment(status, taskRunning, s.networkUp)), wasFree, processing, Other));
      if !s.headerSent {
        Log(HeaderLost);
        return false;
      }
      processing := false;
      Log(Closed);
      return s.succeeds;
    }

    method RenewNow(n: Net)
      modifies this
      ensures State() == Renew(old(State()), n)
    {
      hide Auth.RequestTokens, Auth.RefreshToken;
      if tokenType == OAuth2 {
        var _ := RequestTokens(true, n);
      } else {
        var _ := RefreshToken(n);
      }
    }

    /** Takes over a token from the caller: a custom token has two dots, anything else given as
        one is a refresh token. */
    method SetToken(token: seq<bv8>, hasRefresh: bool, newType: TokenType, canRenew: bool, n: Net)
      modifies this
      ensures State() == SetAuthToken(old(State()), token, hasRefresh, newType, canRenew, n)
    {
      hide Renew;
      customSet := false;
      status := Uninitialized;
      if !hasRefresh && token == [] { return; }
      var refresh := token == [];
      if newType == CustomToken && token != [] {
        var twoDots := FindTwoDots(token);
        if !twoDots { refresh := true; }
      }
      status := Ready;
      step := Begin;
      tokenType := newType;
      if newType == CustomToken && !refresh { customSet := true; }
      if refresh && canRenew { RenewNow(n); }
    }
  }

  method FindTwoDots(s: seq<bv8>) returns (yes: bool)
    ensures yes <==> HasTwoDots(s)
  {
    var p := NextDot(s, 0);
    if p == |s| { return false; }
    var q := NextDot(s, p + 1);
    return q < |s|;
  }

  method NextDot(s: seq<bv8>, from: nat) returns (p: nat)
    requires from <= |s|
    ensures p == FindDot(s, from)
  {
    p := from;
    while p < |s| && s[p] != DOT
      invariant from <= p <= |s|
      invariant FindDot(s, from) == FindDot(s, p)
    {
      p := p + 1;
    }
  }
}
