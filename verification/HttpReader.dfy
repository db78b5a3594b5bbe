/** The byte source of an HTTP response, the line reader, and the line-based decoder of the
    chunked transfer coding (section 4.1 of RFC 7230). */
module HttpReader {
  import opened Text

  /** A connected client. `inbound` is what the server sent and nobody has read yet;
      only its first `ready` bytes have arrived. */
  class TcpClient {
    var inbound: string
    var ready: nat

    constructor (inbound: string, ready: nat)
      requires ready <= |inbound|
      ensures Valid() && this.inbound == inbound && this.ready == ready
    {
      this.inbound, this.ready := inbound, ready;
    }

    ghost predicate Valid()
      reads this
    {
      ready <= |inbound|
    }

    method Available() returns (n: nat)
      ensures n == ready
    {
      n := ready;
    }

    /** One byte, or -1 when none has arrived. */
    method Read() returns (res: int, c: char)
      requires Valid()
      modifies this
      ensures Valid()
      ensures old(ready) == 0 ==> res == -1 && inbound == old(inbound) && ready == 0
      ensures old(ready) > 0 ==> res == c as int && c == old(inbound)[0]
      ensures old(ready) > 0 ==> inbound == old(inbound)[1..] && ready == old(ready) - 1
    {
      if ready == 0 {
        return -1, '\0';
      }
      c := inbound[0];
      res := c as int;
      inbound, ready := inbound[1..], ready - 1;
    }

    /** Everything that has arrived is dropped. */
    method Flush()
      requires Valid()
      modifies this
      ensures Valid() && ready == 0 && inbound == old(inbound)[old(ready)..]
    {
      inbound, ready := inbound[ready..], 0;
    }
  }

  /** How many bytes one call of the line reader takes when it may take `limit`: up to and
      including the first line feed. */
  function LineLen(s: string, limit: nat): (n: nat)
    requires limit <= |s|
    ensures n <= limit
    ensures forall i | 0 <= i < n - 1 :: s[i] != '\n'
    ensures n < limit ==> n > 0 && s[n - 1] == '\n'
  {
    if limit == 0 then 0 else if s[0] == '\n' then 1 else 1 + LineLen(s[1..], limit - 1)
  }

  lemma LineLenIs(s: string, limit: nat, n: nat)
    requires limit <= |s| && n <= limit
    requires forall i | 0 <= i < n - 1 :: s[i] != '\n'
    requires n < limit ==> n > 0 && s[n - 1] == '\n'
    ensures LineLen(s, limit) == n
  {
  }

  method ReadLine(client: TcpClient, buf: array<char>, bufLen: nat) returns (idx: nat)
    requires client.Valid() && bufLen <= buf.Length
    modifies client, buf
    ensures client.Valid()
    ensures idx == LineLen(old(client.inbound), Min(old(client.ready), bufLen))
    ensures client.inbound == old(client.inbound)[idx..] && client.ready == old(client.ready) - idx
    ensures buf[..idx] == old(client.inbound)[..idx] && buf[idx..] == old(buf[idx..])
  {
    ghost var s := client.inbound;
    ghost var limit := Min(client.ready, bufLen);
    idx := 0;
    var available := client.Available();
    while available > 0 && idx < bufLen
      invariant client.Valid() && available == client.ready
      invariant idx <= limit && forall j | 0 <= j < idx :: s[j] != '\n'
      invariant client.inbound == s[idx..] && client.ready == old(client.ready) - idx
      invariant buf[..idx] == s[..idx] && buf[idx..] == old(buf[idx..])
      decreases client.ready
    {
      var res, c := client.Read();
      assert buf[idx..][1..] == old(buf[idx + 1..]);
      buf[idx] := c;
      idx := idx + 1;
      assert buf[..idx] == s[..idx];
      if c == '\n' {
        LineLenIs(s, limit, idx);
        return;
      }
      available := client.Available();
    }
    LineLenIs(s, limit, idx);
  }

  /** What a growing string keeps of appended characters: a NUL adds nothing. */
  function WithoutNul(s: string): (r: string)
    ensures '\0' !in s ==> r == s
    ensures '\0' !in r
  {
    if s == "" then "" else (if s[0] == '\0' then "" else [s[0]]) + WithoutNul(s[1..])
  }

  lemma NoNulInNothing()
    ensures WithoutNul("") == ""
  {
  }

  lemma {:induction false} WithoutNulSnoc(s: string, c: char)
    ensures WithoutNul(s + [c]) == WithoutNul(s) + (if c == '\0' then "" else [c])
  {
    var last := if c == '\0' then "" else [c];
    if s == "" {
      assert s + [c] == [c] && [c][1..] == "";
      assert last + "" == "" + last;
    } else {
      var head := if s[0] == '\0' then "" else [s[0]];
      assert (s + [c])[1..] == s[1..] + [c];
      WithoutNulSnoc(s[1..], c);
      assert WithoutNul(s + [c]) == head + WithoutNul(s[1..] + [c]);
      assert head + (WithoutNul(s[1..]) + last) == head + WithoutNul(s[1..]) + last;
    }
  }

  method ReadLineString(client: TcpClient) returns (line: string, idx: nat)
    requires client.Valid()
    modifies client
    ensures client.Valid()
    ensures idx == LineLen(old(client.inbound), old(client.ready))
    ensures client.inbound == old(client.inbound)[idx..] && client.ready == old(client.ready) - idx
    ensures line == WithoutNul(old(client.inbound)[..idx])
  {
    hide WithoutNul, LineLen;
    ghost var s := client.inbound;
    ghost var limit := client.ready;
    idx, line := 0, "";
    NoNulInNothing();
    var available := client.Available();
    while available > 0
      invariant client.Valid() && available == client.ready
      invariant idx <= limit && forall j | 0 <= j < idx :: s[j] != '\n'
      invariant client.inbound == s[idx..] && client.ready == old(client.ready) - idx
      invariant line == WithoutNul(s[..idx])
      decreases client.ready
    {
      var res, c := client.Read();
      WithoutNulSnoc(s[..idx], c);
      assert s[..idx] + [c] == s[..idx + 1];
      line := line + (if c == '\0' then "" else [c]);
      idx := idx + 1;
      if c == '\n' {
        LineLenIs(s, limit, idx);
        return;
      }
      available := client.Available();
    }
    LineLenIs(s, limit, idx);
  }

  // ---------------------------------------------------------- chunked decoding

  datatype ChunkState = ChunkState(state: int, chunkedSize: int, dataLen: int)

  /** What one call does: the new state, the bytes taken from the client, the returned
      length (-1: complete), and the text it puts into the output. */
  datatype Step = Step(next: ChunkState, taken: nat, olen: int, copied: string)

  function ToInt32(u: nat): (i: int)
    requires u < TWO_32
  {
    if u > INT_MAX then u - TWO_32 else u
  }

  /** The size a size line announces; -1 when the line has neither `;` nor CRLF. */
  function SizeIn(line: string): (size: int) {
    var s := CString(line);
    var semicolon := Find(s, ";", 0);
    var p := if semicolon == -1 then Find(s, "\r\n", 0) else semicolon;
    if p == -1 || p > |s| then -1 else ToInt32(Hex2IntFrom(s[..p], 0))
  }

  /** One call of the decoder on the bytes `s`, of which `limit` may be taken. Into a
      character buffer it copies exactly the chunk's bytes; into a string, the whole line. */
  function ChunkStep(cs: ChunkState, s: string, limit: nat, toString: bool): (r: Step)
    requires limit <= |s|
    ensures r.taken == 0 || r.taken == LineLen(s, limit)
    ensures |r.copied| <= r.taken
    ensures r.olen == -1 || r.olen == 0 || r.olen == r.taken
    ensures r.olen <= 0 ==> r.copied == ""
  {
    var n := LineLen(s, limit);
    var line := if toString then WithoutNul(s[..n]) else s[..n];
    WithoutNulShorter(s[..n]);
    if cs.state == 0 then
      if n == 0 then Step(ChunkState(0, -1, 0), 0, 0, "")
      else
        var size := SizeIn(line);
        Step(ChunkState(1, size, 0), n, if size < 1 then -1 else 0, "")
    else if cs.chunkedSize > -1 then
      var left := cs.chunkedSize - cs.dataLen;
      if n > 0 then
        if cs.dataLen + n - 2 < cs.chunkedSize then
          Step(cs.(dataLen := cs.dataLen + n), n, n, line)
        else
          Step(cs.(state := 0, dataLen := cs.chunkedSize), n, n,
               if left <= 0 then "" else if toString then line else line[..left])
      else Step(cs, 0, if cs.dataLen == cs.chunkedSize then -1 else 0, "")
    else Step(cs, 0, 0, "")
  }

  lemma WithoutNulShorter(s: string)
    ensures |WithoutNul(s)| <= |s|
  {
  }

  /** Overwrites the head of a buffer's content. */
  function Overlay(buf: string, text: string): (r: string)
    requires |text| <= |buf|
    ensures |r| == |buf| && text <= r && (text == "" ==> r == buf)
  {
    text + buf[|text|..]
  }

  /** The growing output string of the other call form. */
  class StringOut {
    var text: string
  }

  /** Reads a line into a string, or into a zeroed buffer of its own. */
  method NextLine(client: TcpClient, toString: bool, bufLen: nat) returns (s: string, readLen: nat)
    requires client.Valid()
    modifies client
    ensures client.Valid()
    ensures
      var limit := if toString then old(client.ready) else Min(old(client.ready), bufLen);
      && readLen == LineLen(old(client.inbound), limit)
      && client.inbound == old(client.inbound)[readLen..] && client.ready == old(client.ready) - readLen
      && s == if toString then WithoutNul(old(client.inbound)[..readLen]) else old(client.inbound)[..readLen]
  {
    hide LineLen, WithoutNul;
    if toString {
      s, readLen := ReadLineString(client);
    } else {
      var buf := new char[bufLen](_ => '\0');
      readLen := ReadLine(client, buf, bufLen);
      s := buf[..readLen];
    }
  }

  /** `out1` and `out2` are the two output forms; every caller passes exactly one. */
  method ReadChunkedData(client: TcpClient, out1: array?<char>, out2: StringOut?, cs: ChunkState, bufLen: nat)
    returns (next: ChunkState, olen: int)
    requires client.Valid() && (out1 == null <==> out2 != null)
    requires out1 != null ==> bufLen <= out1.Length
    modifies client, out1, out2
    ensures client.Valid()
    ensures
      var limit := if out2 != null then old(client.ready) else Min(old(client.ready), bufLen);
      var step := ChunkStep(cs, old(client.inbound), limit, out2 != null);
      && next == step.next && olen == step.olen
      && client.inbound == old(client.inbound)[step.taken..]
      && client.ready == old(client.ready) - step.taken
      && (out1 != null ==> out1[..] == Overlay(old(out1[..]), step.copied))
      && (out2 != null ==> out2.text == old(out2.text) + step.copied)
  {
    hide CString, LineLen, Find, Hex2IntFrom, WithoutNul;
    next, olen := cs, 0;
    if cs.state == 0 {
      next := ChunkState(1, -1, 0);
      var s, readLen := NextLine(client, out2 != null, bufLen);
      if readLen > 0 {
        var text := CString(s);
        var p1 := StrPos(text, ";", 0);
        if p1 == -1 {
          p1 := StrPos(text, "\r\n", 0);
        }
        if p1 != -1 && p1 <= |text| {
          var size := Hex2Int(text[..p1]);
          CStringOfNulFree(text[..p1], "");
          assert text[..p1] + "" == text[..p1];
          next := next.(chunkedSize := ToInt32(size));
        }
        if next.chunkedSize < 1 {
          olen := -1;
        }
      } else {
        next := next.(state := 0);
      }
    } else if cs.chunkedSize > -1 {
      var s, readLen := NextLine(client, out2 != null, bufLen);
      if readLen > 0 {
        if cs.dataLen + readLen - 2 < cs.chunkedSize {
          next := cs.(dataLen := cs.dataLen + readLen);
          Emit(out1, out2, s, |s|);
          olen := readLen;
        } else {
          if cs.chunkedSize - cs.dataLen > 0 {
            Emit(out1, out2, s, cs.chunkedSize - cs.dataLen);
          }
          next := cs.(dataLen := cs.chunkedSize, state := 0);
          olen := readLen;
        }
      } else if cs.dataLen == cs.chunkedSize {
        olen := -1;
      }
    }
  }

  /** Appends the line to the string, or copies `count` of its bytes into the buffer. */
  method Emit(out1: array?<char>, out2: StringOut?, line: string, count: nat)
    requires out1 == null <==> out2 != null
    requires out1 != null ==> count <= |line| && count <= out1.Length
    modifies out1, out2
    ensures out1 != null ==> out1[..] == Overlay(old(out1[..]), line[..count])
    ensures out2 != null ==> out2.text == old(out2.text) + line
  {
    if out2 != null {
      out2.text := out2.text + line;
    } else {
      forall i | 0 <= i < count {
        out1[i] := line[i];
      }
      assert out1[..] == Overlay(old(out1[..]), line[..count]);
    }
  }
}
