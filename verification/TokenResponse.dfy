/** Reading the answer to a token request from the first byte to the JSON text handed on:
    status line, header, and a body framed by length or by chunks. */
module TokenResponse {
  import opened Wrappers
  import opened Text
  import opened HttpReader
  import opened ChunkFraming

  /** Size of the line buffers, `defaultChunkSize` of the token exchange. */
  const BUF_LEN: nat := 2048

  const NO_CONTENT := 204

  // ------------------------------------------------------------ header fields

  /** The text between the first `token1` and the next `token2` that lies at least one
      character behind it; to the end of `src` when there is none. */
  function TokenSubString(src: string, token1: string, token2: string): (r: Option<string>) {
    var pos1 := Find(src, token1, 0);
    if pos1 == -1 || pos1 + |token1| > |src| then None
    else
      var start := pos1 + |token1|;
      var found := Find(src, token2, start + 1);
      var pos2 := if found == -1 || found > |src| || found < start then |src| else found;
      Some(src[start..pos2])
  }

  /** The status code in a status line, 0 when the line has none. */
  function StatusCode(line: string): (code: nat) {
    match TokenSubString(line, "HTTP/1.1 ", " ")
    case None => 0
    case Some(s) => Atoi(s)
  }

  function ContentLength(header: string, default: int): (n: int) {
    match TokenSubString(header, "Content-Length: ", "\r\n")
    case None => default
    case Some(s) => Atoi(s)
  }

  predicate IsChunked(header: string) {
    match TokenSubString(header, "Transfer-Encoding: ", "\r\n")
    case None => false
    case Some(s) => s[..Min(7, |s|)] == "chunked"
  }

  // ---------------------------------------------------------- the reader state

  /** The state of one exchange: what is left on the client, the handler's and the
      response's fields, and the payload collected so far. */
  datatype Reader = Reader(
    inbound: string, ready: nat,
    chunkIdx: int, isHeader: bool, headerEnded: bool, header: string,
    httpCode: int, contentLen: int, chunked: bool, noContent: bool,
    payloadRead: int, bufferAvailable: int, chunkState: ChunkState, payload: string)
  {
    ghost predicate Ok() { ready <= |inbound| }

    function Line(): (n: nat)
      requires Ok()
      ensures n <= ready
    {
      LineLen(inbound, Min(ready, BUF_LEN))
    }

    function Take(n: nat): (v: Reader)
      requires Ok() && n <= ready
      ensures v.Ok()
    {
      this.(inbound := inbound[n..], ready := ready - n)
    }
  }

  function AfterStatusLine(v: Reader): (r: Reader)
    requires v.Ok()
    ensures r.Ok()
  {
    if v.chunkIdx + 1 > 1 then v.(chunkIdx := v.chunkIdx + 1)
    else
      var line := CString(v.inbound[..v.Line()]);
      var status := StatusCode(line);
      v.Take(v.Line()).(
        chunkIdx := v.chunkIdx + 1,
        header := v.header + line,
        isHeader := v.isHeader || status > 0,
        httpCode := if status > 0 then status else v.httpCode)
  }

  predicate EndsHeader(line: string) { line == "\r" || line == "\r\n" }

  lemma EndsHeaderIs(line: string)
    ensures EndsHeader(line) <==> (|line| == 1 && line[0] == '\r') || (|line| == 2 && line[0] == '\r' && line[1] == '\n')
  {
  }

  function AfterHeaderLine(v: Reader): (r: Reader)
    requires v.Ok()
    ensures r.Ok()
  {
    var line := v.inbound[..v.Line()];
    var w := v.Take(v.Line());
    if v.headerEnded || EndsHeader(line) then
      var w' := w.(headerEnded := true, isHeader := false);
      if v.httpCode == -1 then w'
      else w'.(contentLen := ContentLength(v.header, v.contentLen),
               chunked := v.chunked || IsChunked(v.header),
               noContent := v.noContent || v.httpCode == NO_CONTENT)
    else w.(header := v.header + CString(line))
  }

  /** What one payload read takes from the bytes `s`. */
  function PieceStep(chunked: bool, cs: ChunkState, s: string, ready: nat): (r: Step)
    requires ready <= |s|
    ensures r.taken <= ready
  {
    var limit := Min(ready, BUF_LEN);
    var n := LineLen(s, limit);
    if chunked then ChunkStep(cs, s, limit, false) else Step(cs, n, n, s[..n])
  }

  function AfterPayload(v: Reader): (r: Reader)
    requires v.Ok()
    ensures r.Ok()
  {
    var step := PieceStep(v.chunked, v.chunkState, v.inbound, v.ready);
    var w := v.Take(step.taken).(chunkState := step.next, bufferAvailable := step.olen);
    if step.olen > 0 then w.(payloadRead := v.payloadRead + step.olen, payload := v.payload + CString(step.copied))
    else w
  }

  /** What arrives in the next round, and in those after it. */
  function Next(arrivals: seq<nat>): (n: nat) { if arrivals == [] then 0 else arrivals[0] }

  function Later(arrivals: seq<nat>): (r: seq<nat>) { if arrivals == [] then [] else arrivals[1..] }

  /** What the environment does from round to round: polls until the response time is up, network
      checks until the connection is lost, and the number of bytes that arrive in each round. */
  datatype Net = Net(polls: nat, checks: nat, connected: bool, arrivals: seq<nat>)

  class Network {
    var polls: nat
    var checks: nat
    const connected: bool
    var arrivals: seq<nat>

    constructor (n: Net)
      ensures State() == n
    {
      polls, checks, connected, arrivals := n.polls, n.checks, n.connected, n.arrivals;
    }

    function State(): (n: Net)
      reads this
    {
      Net(polls, checks, connected, arrivals)
    }

    /** Bytes arrive while the device idles. */
    method Idle(client: TcpClient)
      requires client.Valid()
      modifies this`arrivals, client`ready
      ensures client.Valid() && client.ready == Min(old(client.ready) + Next(old(arrivals)), |client.inbound|)
      ensures arrivals == Later(old(arrivals))
    {
      if arrivals != [] {
        client.ready := Min(client.ready + arrivals[0], |client.inbound|);
        arrivals := arrivals[1..];
      }
    }

    method Reconnect() returns (up: bool)
      modifies this`checks
      ensures up == (old(checks) > 0)
      ensures checks == if up then old(checks) - 1 else 0
    {
      up := checks > 0;
      checks := if up then checks - 1 else 0;
    }

    method IsResponseTimeout() returns (late: bool)
      modifies this`polls
      ensures late == (old(polls) == 0)
      ensures polls == if late then 0 else old(polls) - 1
    {
      late := polls == 0;
      polls := if late then 0 else polls - 1;
    }
  }

  /** One line into a fresh zeroed buffer of the usual size. */
  method ReadLineBuffered(client: TcpClient) returns (line: string)
    requires client.Valid()
    modifies client
    ensures client.Valid()
    ensures line == old(client.inbound)[..LineLen(old(client.inbound), Min(old(client.ready), BUF_LEN))]
    ensures client.inbound == old(client.inbound)[|line|..] && client.ready == old(client.ready) - |line|
  {
    var hChunk := new char[BUF_LEN](_ => '\0');
    var readLen := ReadLine(client, hChunk, BUF_LEN);
    line := hChunk[..readLen];
  }

  class Exchange {
    const client: TcpClient
    // fields of the response handler
    var chunkIdx: int
    var isHeader: bool
    var headerEnded: bool
    var header: string
    var payloadRead: int
    var bufferAvailable: int
    var chunkState: ChunkState
    // fields of the response
    var httpCode: int
    var contentLen: int
    var isChunkedEnc: bool
    var noContent: bool
    // the collected text
    var payload: string

    constructor (client: TcpClient)
      requires client.Valid()
      ensures this.client == client
      ensures View() == Fresh(client.inbound, client.ready)
    {
      this.client := client;
      chunkIdx, isHeader, headerEnded, header := 0, false, false, "";
      payloadRead, bufferAvailable, chunkState := 0, 0, ChunkState(0, 0, 0);
      httpCode, contentLen, isChunkedEnc, noContent := 0, 0, false, false;
      payload := "";
    }

    ghost function View(): (v: Reader)
      reads this, client
    {
      Reader(client.inbound, client.ready, chunkIdx, isHeader, headerEnded, header, httpCode, contentLen,
           isChunkedEnc, noContent, payloadRead, bufferAvailable, chunkState, payload)
    }

    method ReadStatusLine() returns (first: bool)
      requires client.Valid()
      modifies this, client
      ensures client.Valid() && first == (old(chunkIdx) + 1 <= 1)
      ensures View() == AfterStatusLine(old(View()))
    {
      hide StatusCode, CString, LineLen;
      chunkIdx := chunkIdx + 1;
      if chunkIdx > 1 {
        return false;
      }
      var raw := ReadLineBuffered(client);
      var line := CString(raw);
      if |raw| > 0 {
        header := header + line;
      }
      var status := StatusCode(line);
      if status > 0 {
        isHeader := true;
        httpCode := status;
      }
      first := true;
    }

    method ReadHeader() returns (ended: bool)
      requires client.Valid()
      modifies this, client
      ensures client.Valid()
      ensures View() == AfterHeaderLine(old(View())) && ended == headerEnded
    {
      hide ContentLength, IsChunked, CString, LineLen, EndsHeader;
      var line := ReadLineBuffered(client);
      EndsHeaderIs(line);
      if (|line| == 1 && line[0] == '\r') || (|line| == 2 && line[0] == '\r' && line[1] == '\n') {
        headerEnded := true;
      }
      if headerEnded {
        isHeader := false;
        ParseRespHeader();
      } else if |line| > 0 {
        header := header + CString(line);
      }
      ended := headerEnded;
    }

    method ParseRespHeader()
      modifies this`contentLen, this`isChunkedEnc, this`noContent
      ensures httpCode == -1 ==> contentLen == old(contentLen) && isChunkedEnc == old(isChunkedEnc) && noContent == old(noContent)
      ensures httpCode != -1 ==>
                && contentLen == ContentLength(header, old(contentLen))
                && isChunkedEnc == (old(isChunkedEnc) || IsChunked(header))
                && noContent == (old(noContent) || httpCode == NO_CONTENT)
    {
      if httpCode != -1 {
        contentLen := ContentLength(header, contentLen);
        if IsChunked(header) {
          isChunkedEnc := true;
        }
        if httpCode == NO_CONTENT {
          noContent := true;
        }
      }
    }

    method ReadPayload()
      requires client.Valid()
      modifies this, client
      ensures client.Valid() && View() == AfterPayload(old(View()))
    {
      hide ChunkStep, CString, LineLen;
      var text: string;
      chunkState, bufferAvailable, text := ReadPiece(client, isChunkedEnc, chunkState);
      if bufferAvailable > 0 {
        payloadRead := payloadRead + bufferAvailable;
        payload := payload + text;
      }
    }
  }

  /** Reads the next piece of payload into a zeroed buffer and returns it as a C string. */
  method ReadPiece(client: TcpClient, chunked: bool, cs: ChunkState) returns (next: ChunkState, olen: int, text: string)
    requires client.Valid()
    modifies client
    ensures client.Valid()
    ensures
      var step := PieceStep(chunked, cs, old(client.inbound), old(client.ready));
      && next == step.next && olen == step.olen && text == CString(step.copied)
      && client.inbound == old(client.inbound)[step.taken..] && client.ready == old(client.ready) - step.taken
  {
    hide ChunkStep, CString, LineLen;
    var pChunk := new char[BUF_LEN + 1](_ => '\0');
    ghost var zeros := pChunk[..];
    ghost var step := PieceStep(chunked, cs, client.inbound, client.ready);
    if chunked {
      next, olen := ReadChunkedData(client, pChunk, null, cs, BUF_LEN);
    } else {
      var n := ReadLine(client, pChunk, BUF_LEN);
      next, olen := cs, n;
      assert pChunk[..] == pChunk[..n] + pChunk[n..];
      assert zeros[n..] == pChunk[n..];
    }
    assert pChunk[..] == Overlay(zeros, step.copied);
    text := CString(pChunk[..]);
    CStringOfPadded(step.copied, pChunk[..]);
  }

  /** Cutting at the first NUL does not see the zeroed rest of the buffer. */
  lemma {:induction false} CStringOfPadded(text: string, buf: string)
    requires text <= buf && forall i | |text| <= i < |buf| :: buf[i] == '\0'
    ensures CString(buf) == CString(text)
    decreases |text|
  {
    if text != "" {
      assert buf[0] == text[0];
      CStringOfPadded(text[1..], buf[1..]);
    }
  }

  function Fresh(inbound: string, ready: nat): (v: Reader) {
    Reader(inbound, ready, 0, false, false, "", 0, 0, false, false, 0, 0, ChunkState(0, 0, 0), "")
  }
}
