/** The receive side of the socket client: a refillable buffer in front of the socket that
    behaves like the plain queue of the bytes the peer sent. */
module RxBuffer {

  function Min(a: nat, b: nat): (m: nat) { if a < b then a else b }

  /** What the operating system is ready to answer: an error, or up to `n` bytes. */
  datatype Answer = Fails(wouldBlock: bool) | Bytes(n: nat)

  function Granted(a: Answer): (n: nat) { if a.Bytes? then a.n else 0 }

  /** The operating system's end. `inbound` is what the peer has sent, or will send, on this
      connection and `recv` has not yet returned. The `i`-th FIONREAD finds `waits(i)`, the `i`-th
      `recv` gets `gives(i)`. */
  class Socket {
    const waits: nat -> Answer
    const gives: nat -> Answer
    var asked: nat
    var received: nat
    var inbound: seq<bv8>

    constructor (inbound: seq<bv8>, waits: nat -> Answer, gives: nat -> Answer)
      ensures this.inbound == inbound && this.waits == waits && this.gives == gives && asked == received == 0
    {
      this.inbound, this.waits, this.gives, asked, received := inbound, waits, gives, 0, 0;
    }

    /** How many bytes the next FIONREAD reports. */
    function Reports(): (n: nat)
      reads this
      ensures n <= |inbound|
    {
      Min(Granted(waits(asked)), |inbound|)
    }

    /** How many bytes the next `recv` of at most `max` returns. */
    function Returns(max: nat): (n: nat)
      reads this
      ensures n <= max && n <= |inbound|
    {
      Min(Min(Granted(gives(received)), max), |inbound|)
    }

    /** From now on everything that is to come has arrived, and is handed over as fast as a buffer of
        the given size can take it. */
    ghost predicate Prompt(size: nat)
      reads this
    {
      && (forall i | asked <= i :: waits(i).Bytes? && waits(i).n > 0)
      && (forall i | received <= i :: gives(i).Bytes? && gives(i).n >= size)
    }

    /** FIONREAD: an error, or how many bytes wait right now. */
    method Waiting() returns (error: bool, count: nat)
      modifies this`asked
      ensures asked == old(asked) + 1
      ensures error == waits(old(asked)).Fails? && count == old(Reports())
    {
      error, count := waits(asked).Fails?, Reports();
      asked := asked + 1;
    }

    /** A non-blocking `recv`: an error, or any number of bytes up to `max`. */
    method Recv(max: nat) returns (res: int, wouldBlock: bool, data: seq<bv8>)
      modifies this`received, this`inbound
      ensures received == old(received) + 1 && (res < 0 <==> gives(old(received)).Fails?)
      ensures res < 0 ==> inbound == old(inbound) && data == [] && wouldBlock == gives(old(received)).wouldBlock
      ensures res >= 0 ==> res == old(Returns(max)) && data == old(inbound)[..res] && inbound == old(inbound)[res..]
    {
      var answer := gives(received);
      wouldBlock, data := false, [];
      received := received + 1;
      if answer.Fails? {
        return -1, answer.wouldBlock, [];
      }
      var n := Min(Min(answer.n, max), |inbound|);
      res, data, inbound := n, inbound[..n], inbound[n..];
    }
  }

  lemma Reassociate(a: seq<bv8>, b: seq<bv8>, n: nat)
    requires n <= |b|
    ensures (a + b[..n]) + b[n..] == a + b
  {
  }

  /** What `at + k` items of a queue are, in two steps. */
  lemma TakeTwice(queue: seq<bv8>, at: nat, k: nat)
    requires at + k <= |queue|
    ensures queue[..at] + queue[at..][..k] == queue[..at + k] && queue[at..][k..] == queue[at + k..]
  {
  }

  class Client {
    const rxBuffSize: nat
    var sock: Socket
    var open: bool
    var rxBuff: array?<bv8>
    var fillPos: nat
    var fillSize: nat
    var failed: bool
    /** Whether the heap has room for the buffer. */
    var memory: bool

    constructor (rxBuffSize: nat, sock: Socket, memory: bool)
      requires rxBuffSize > 0
      ensures Valid() && this.sock == sock && Buffered() == [] && rxBuff == null && open && !failed
      ensures this.rxBuffSize == rxBuffSize && fillPos == fillSize == 0 && this.memory == memory
    {
      this.rxBuffSize, this.sock, open, this.memory := rxBuffSize, sock, true, memory;
      rxBuff, fillPos, fillSize, failed := null, 0, 0, false;
    }

    ghost predicate Valid()
      reads this
    {
      && rxBuffSize > 0
      && fillPos <= fillSize <= rxBuffSize
      && (rxBuff != null ==> rxBuff.Length == rxBuffSize)
      && (rxBuff == null ==> fillPos == fillSize)
    }

    /** What the next reads return before the socket is asked again. */
    ghost function Buffered(): (s: seq<bv8>)
      requires Valid()
      reads this, rxBuff
    {
      if rxBuff == null then [] else rxBuff[fillPos..fillSize]
    }

    /** The abstract queue: everything that has not been handed out. */
    ghost function Unread(): (s: seq<bv8>)
      requires Valid()
      reads this, rxBuff, sock
    {
      Buffered() + sock.inbound
    }

    /** The free end of the buffer, which starts again at its front when it has been read. */
    function Room(): (n: nat)
      requires Valid()
      reads this
    {
      if fillPos == fillSize then rxBuffSize else rxBuffSize - fillSize
    }

    /** There is a connection, a buffer or memory for one, and room in it. */
    predicate CanFill()
      requires Valid()
      reads this
    {
      open && (rxBuff != null || memory) && Room() > 0
    }

    /** What a refill brings: what `recv` returns, if FIONREAD has reported anything. */
    function Brings(): (n: nat)
      requires Valid()
      reads this, sock
    {
      if CanFill() && sock.Reports() > 0 then sock.Returns(Room()) else 0
    }

    /** Everything has arrived, and can be taken. */
    ghost predicate Supplied()
      reads this, sock
    {
      open && (rxBuff != null || memory) && sock.Prompt(rxBuffSize)
    }

    /** What a read of `len` then returns: all there is, up to `len`; but if more is asked for than is
        buffered, and the refill that fits behind it brings less than is missing, then only what was
        buffered before. */
    ghost function Obtains(len: nat): (n: nat)
      requires Valid()
      reads this, rxBuff, sock
    {
      var remain, space, rest := |Buffered()|, rxBuffSize - fillSize, |sock.inbound|;
      if 0 < remain < len && 0 < rest < len - remain <= space then remain else Min(len, remain + rest)
    }

    /** So a read returns less than it could exactly in that case. */
    lemma ReadsAllIff(len: nat)
      requires Valid()
      ensures var remain, space, rest := |Buffered()|, rxBuffSize - fillSize, |sock.inbound|;
              Obtains(len) == Min(len, |Unread()|) <==> !(0 < remain < len && 0 < rest < len - remain <= space)
    {
    }

    method Waiting() returns (count: nat)
      modifies this`failed, sock`asked
      ensures count == (if open then old(sock.Reports()) else 0)
      ensures failed == (old(failed) || (open && sock.waits(old(sock.asked)).Fails?))
      ensures sock.asked == old(sock.asked) + if open then 1 else 0
    {
      if !open {
        return 0;
      }
      var error;
      error, count := sock.Waiting();
      if error {
        failed := true;
        return 0;
      }
    }

    method AllocRxBuffer() returns (ok: bool)
      requires Valid() && rxBuff == null
      modifies this`rxBuff, this`failed
      ensures Valid() && Buffered() == [] && ok == memory && (ok <==> rxBuff != null)
      ensures ok ==> fresh(rxBuff) && failed == old(failed)
    {
      ok := memory;
      if ok {
        rxBuff := new bv8[rxBuffSize];
      } else {
        failed := true;
      }
    }

    /** One `recv` into the free end of the buffer. */
    method Receive() returns (n: nat)
      requires Valid() && rxBuff != null && fillSize < rxBuffSize
      modifies this`fillSize, this`failed, rxBuff, sock`received, sock`inbound
      ensures Valid() && n == old(sock.Returns(rxBuffSize - fillSize)) && sock.inbound == old(sock.inbound)[n..]
      ensures Buffered() == old(Buffered()) + old(sock.inbound)[..n] && fillSize == old(fillSize) + n
      ensures sock.received == old(sock.received) + 1
    {
      n := 0;
      assert Buffered() + [] == Buffered();
      var res, wouldBlock, data := sock.Recv(rxBuffSize - fillSize);
      if res < 0 {
        if !wouldBlock {
          failed := true;
        }
        return;
      }
      Append(data);
      n := res;
    }

    method Append(data: seq<bv8>)
      requires Valid() && rxBuff != null && fillSize + |data| <= rxBuffSize
      modifies this`fillSize, rxBuff
      ensures Valid() && Buffered() == old(Buffered()) + data && fillSize == old(fillSize) + |data|
    {
      ghost var was := Buffered();
      forall i | 0 <= i < |data| {
        rxBuff[fillSize + i] := data[i];
      }
      assert rxBuff[fillPos..fillSize] == was;
      assert rxBuff[fillSize..fillSize + |data|] == data;
      fillSize := fillSize + |data|;
    }

    /** Allocates the buffer if need be, and starts again at its front when it has been read. */
    method MakeRoom() returns (room: bool)
      requires Valid()
      modifies this`rxBuff, this`fillPos, this`fillSize, this`failed
      ensures Valid() && (rxBuff == old(rxBuff) || (old(rxBuff) == null && fresh(rxBuff)))
      ensures Buffered() == old(Buffered()) && Unread() == old(Unread())
      ensures room <==> rxBuff != null && fillSize < rxBuffSize
      ensures room <==> (old(rxBuff) != null || memory) && old(Room()) > 0
      ensures room ==> rxBuffSize - fillSize == old(Room())
      ensures fillSize - fillPos == old(fillSize) - old(fillPos) && fillSize <= old(fillSize)
    {
      if rxBuff == null {
        var ok := AllocRxBuffer();
        if !ok {
          return false;
        }
      }
      if fillSize > 0 && fillPos == fillSize {
        fillSize, fillPos := 0, 0;
      }
      return fillSize < rxBuffSize;
    }

    /** Moves bytes from the socket behind those already buffered. */
    method FillRxBuffer() returns (n: nat)
      requires Valid()
      modifies this`rxBuff, this`fillPos, this`fillSize, this`failed, rxBuff, sock
      ensures Valid() && (rxBuff == old(rxBuff) || (old(rxBuff) == null && fresh(rxBuff)))
      ensures n == old(Brings()) && sock.inbound == old(sock.inbound)[n..]
      ensures Buffered() == old(Buffered()) + old(sock.inbound)[..n] && Unread() == old(Unread())
      ensures n > 0 ==> rxBuff != null && fillSize == rxBuffSize - old(Room()) + n
      ensures n == 0 ==> fillSize <= old(fillSize)
      ensures old(sock.Prompt(rxBuffSize)) ==> sock.Prompt(rxBuffSize)
    {
      ghost var was := Buffered();
      ghost var queue := sock.inbound;
      n := 0;
      assert was + queue[..0] == was && queue[0..] == queue;
      var room := MakeRoom();
      if !room {
        return;
      }
      var waiting := Waiting();
      if waiting == 0 {
        return;
      }
      n := Receive();
      Reassociate(was, queue, n);
    }

    /** Takes `k` buffered bytes out into `dst[at..]`. */
    method Take(dst: array<bv8>, at: nat, k: nat)
      requires Valid() && dst != rxBuff && k <= |Buffered()| && at + k <= dst.Length
      modifies this`fillPos, dst
      ensures Valid() && fillPos == old(fillPos) + k
      ensures dst[..] == old(dst[..at]) + old(Buffered())[..k] + old(dst[at + k..])
      ensures Buffered() == old(Buffered())[k..] && Unread() == old(Unread())[k..]
    {
      ghost var was := Buffered();
      if rxBuff != null {
        forall i | 0 <= i < k {
          dst[at + i] := rxBuff[fillPos + i];
        }
      }
      fillPos := fillPos + k;
      assert dst[at..at + k] == was[..k];
      assert dst[..] == dst[..at] + dst[at..at + k] + dst[at + k..];
      assert rxBuff != null ==> rxBuff[fillPos..fillSize] == was[k..];
      assert Buffered() == was[k..];
      assert (was + sock.inbound)[k..] == was[k..] + sock.inbound;
    }

    /** Reads up to `len` bytes: they are the head of the queue, and the queue loses exactly
        them. A read of something returns nothing exactly if nothing is buffered and the refill
        brings nothing. */
    method TcpRead(dst: array?<bv8>, len: nat) returns (n: int)
      requires Valid() && (dst != null ==> dst != rxBuff && len <= dst.Length)
      modifies this`rxBuff, this`fillPos, this`fillSize, this`failed, rxBuff, sock, dst
      ensures Valid() && (rxBuff == old(rxBuff) || (old(rxBuff) == null && fresh(rxBuff)))
      ensures -1 <= n <= len && (n > 0 ==> dst != null)
      ensures n <= 0 ==> n == (if failed then -1 else 0) && Unread() == old(Unread()) && (dst != null ==> dst[..] == old(dst[..]))
      ensures n > 0 ==>
                && n <= |old(Unread())|
                && dst[..] == old(Unread())[..n] + old(dst[n..])
                && Unread() == old(Unread())[n..]
      ensures n > 0 <==> dst != null && len > 0 && (old(Buffered()) != [] || old(Brings()) > 0)
      ensures dst != null && len > 0 && n <= 0 ==> Buffered() == []
      ensures dst != null && old(Supplied()) ==> if old(Obtains(len)) > 0 then n == old(Obtains(len)) else n <= 0
    {
      if dst == null || len == 0 {
        return if failed then -1 else 0;
      }
      if fillPos == fillSize {
        var got := FillRxBuffer();
        if got == 0 {
          return if failed then -1 else 0;
        }
      }
      n := Transfer(dst, len);
    }

    /** The copying part, with something buffered. */
    method Transfer(dst: array<bv8>, len: nat) returns (n: int)
      requires Valid() && dst != rxBuff && 0 < len <= dst.Length && Buffered() != []
      modifies this`rxBuff, this`fillPos, this`fillSize, this`failed, rxBuff, sock, dst
      ensures Valid() && rxBuff == old(rxBuff) && 0 < n <= len && n <= |old(Unread())|
      ensures dst[..] == old(Unread())[..n] + old(dst[n..])
      ensures Unread() == old(Unread())[n..]
      ensures old(Supplied()) ==> n == old(Obtains(len))
    {
      var remain := fillSize - fillPos;
      if len <= remain {
        TakeFront(dst, len);
        return len;
      }
      if len - remain <= rxBuffSize - fillSize {
        var got := FillRxBuffer();
        if got >= len - remain {
          TakeFront(dst, len);
          return len;
        }
      }
      // `remain` may be stale here: more may have been appended behind it
      TakeFront(dst, remain);
      assert old(dst[..])[remain..] == old(dst[remain..]);
      n := TransferRest(dst, len, remain, old(Unread()), old(dst[..]));
      assert old(dst[..])[n..] == old(dst[n..]);
    }

    method TakeFront(dst: array<bv8>, k: nat)
      requires Valid() && dst != rxBuff && k <= |Buffered()| && k <= dst.Length
      modifies this`fillPos, dst
      ensures Valid() && k <= |old(Unread())|
      ensures dst[..] == old(Unread())[..k] + old(dst[k..])
      ensures Unread() == old(Unread())[k..]
    {
      ghost var front := Buffered();
      assert front[..k] == Unread()[..k];
      Take(dst, 0, k);
      assert old(dst[..0]) + front[..k] == front[..k];
    }

    /** `at` bytes of the queue have been copied over the old content `tail` of `dst`. */
    ghost predicate Copied(dst: array<bv8>, at: nat, queue: seq<bv8>, tail: seq<bv8>)
      requires Valid()
      reads this, rxBuff, sock, dst
    {
      at <= |queue| && at <= |tail| == dst.Length && Unread() == queue[at..] && dst[..] == queue[..at] + tail[at..]
    }

    /** Takes up to `left` more bytes of what is buffered. */
    method TakeMore(dst: array<bv8>, at: nat, left: nat, ghost queue: seq<bv8>, ghost tail: seq<bv8>) returns (k: nat)
      requires Valid() && dst != rxBuff && at + left <= dst.Length && Copied(dst, at, queue, tail)
      modifies this`fillPos, dst
      ensures Valid() && k <= left && (Buffered() == [] || k == left) && Copied(dst, at + k, queue, tail)
      ensures k == Min(left, |old(Buffered())|) && |Buffered()| == |old(Buffered())| - k && sock.inbound == old(sock.inbound)
    {
      var remain := fillSize - fillPos;
      k := if remain > left then left else remain;
      assert Buffered()[..k] == Unread()[..k];
      TakeTwice(queue, at, k);
      assert dst[..at] == queue[..at] && dst[at + k..] == tail[at + k..];
      Take(dst, at, k);
    }

    /** A refill moves nothing in the queue. */
    method Refill(dst: array<bv8>, at: nat, ghost queue: seq<bv8>, ghost tail: seq<bv8>) returns (got: nat)
      requires Valid() && dst != rxBuff && rxBuff != null && Copied(dst, at, queue, tail)
      modifies this`rxBuff, this`fillPos, this`fillSize, this`failed, rxBuff, sock
      ensures Valid() && rxBuff == old(rxBuff) && Copied(dst, at, queue, tail)
      ensures got == old(Brings()) && |sock.inbound| == |old(sock.inbound)| - got && |Buffered()| == |old(Buffered())| + got
      ensures old(Supplied()) && old(Buffered()) == [] && old(sock.inbound) != [] ==> got > 0
      ensures old(sock.Prompt(rxBuffSize)) ==> sock.Prompt(rxBuffSize)
    {
      got := FillRxBuffer();
    }

    /** One turn of the refill loop. */
    method RefillAndTake(dst: array<bv8>, at: nat, left: nat, ghost queue: seq<bv8>, ghost tail: seq<bv8>)
      returns (got: nat, k: nat)
      requires Valid() && dst != rxBuff && rxBuff != null && at + left <= dst.Length && left > 0
      requires Copied(dst, at, queue, tail)
      modifies this`rxBuff, this`fillPos, this`fillSize, this`failed, rxBuff, sock, dst
      ensures Valid() && rxBuff == old(rxBuff) && k <= left && (got == 0 <==> k == 0)
      ensures Copied(dst, at + k, queue, tail)
      ensures got == old(Brings()) && |sock.inbound| == |old(sock.inbound)| - got
      ensures got > 0 ==> k == Min(left, |old(Buffered())| + got) && |Buffered()| == |old(Buffered())| + got - k
      ensures old(Supplied()) && old(Buffered()) == [] && old(sock.inbound) != [] ==> got > 0
      ensures old(sock.Prompt(rxBuffSize)) ==> sock.Prompt(rxBuffSize)
    {
      hide Copied, Brings, Buffered;
      got := Refill(dst, at, queue, tail);
      k := 0;
      if got > 0 {
        k := TakeMore(dst, at, left, queue, tail);
      }
    }

    /** The refill loop, `from` bytes having been copied. */
    method TransferRest(dst: array<bv8>, len: nat, from: nat, ghost queue: seq<bv8>, ghost tail: seq<bv8>) returns (n: int)
      requires Valid() && dst != rxBuff && rxBuff != null && 0 < from <= len <= dst.Length && Copied(dst, from, queue, tail)
      modifies this`rxBuff, this`fillPos, this`fillSize, this`failed, rxBuff, sock, dst
      ensures Valid() && rxBuff == old(rxBuff) && 0 < n <= len && Copied(dst, n, queue, tail)
      ensures old(Supplied()) && old(Buffered()) == [] ==> n == Min(len, from + |old(sock.inbound)|)
      ensures old(sock.inbound) == [] ==> n == from
    {
      hide Copied, Valid;
      var left, at := len - from, from;
      while left > 0
        invariant Valid() && rxBuff == old(rxBuff) && at + left == len && 0 <= left && 0 < at
        invariant Copied(dst, at, queue, tail)
        invariant old(Supplied()) ==> Supplied()
        invariant old(Supplied()) && old(Buffered()) == [] ==> at + |Buffered()| + |sock.inbound| == from + |old(sock.inbound)|
        invariant old(Supplied()) && old(Buffered()) == [] && left > 0 ==> Buffered() == []
        invariant old(sock.inbound) == [] ==> at == from && sock.inbound == []
      {
        var got, k := RefillAndTake(dst, at, left, queue, tail);
        if got == 0 {
          return len - left;
        }
        left := left - k;
        at := at + k;
      }
      return len;
    }

    /** One byte without taking it; before the first fill there is no buffer to look into. */
    method TcpPeek() returns (r: int)
      requires Valid()
      modifies this`rxBuff, this`fillPos, this`fillSize, this`failed, rxBuff, sock
      ensures Valid() && (rxBuff == old(rxBuff) || (old(rxBuff) == null && fresh(rxBuff))) && Unread() == old(Unread())
      ensures r >= 0 ==> Unread() != [] && r == Unread()[0] as int
      ensures r < 0 ==> r == -1 && Buffered() == []
      ensures r >= 0 <==> old(rxBuff) != null && (old(Buffered()) != [] || old(Brings()) > 0)
    {
      if rxBuff == null {
        return -1;
      }
      if fillPos == fillSize {
        var got := FillRxBuffer();
        if got == 0 {
          return -1;
        }
      }
      r := rxBuff[fillPos] as int;
      assert Buffered()[0] == rxBuff[fillPos];
    }

    /** Needs no valid state: a count left over from a closed connection is still added. */
    method TcpAvailable() returns (n: int)
      modifies this`failed, sock`asked
      ensures n == fillSize - fillPos + if open then old(sock.Reports()) else 0
    {
      var waiting := Waiting();
      n := fillSize - fillPos + waiting;
    }

    method FillIfWaiting() returns (k: nat)
      requires Valid()
      modifies this`rxBuff, this`fillPos, this`fillSize, this`failed, rxBuff, sock
      ensures Valid() && (rxBuff == old(rxBuff) || (old(rxBuff) == null && fresh(rxBuff)))
      ensures k <= |old(sock.inbound)| && sock.inbound == old(sock.inbound)[k..]
      ensures Buffered() == old(Buffered()) + old(sock.inbound)[..k] && Unread() == old(Unread())
      ensures !open || old(sock.Reports()) == 0 ==> k == 0
      ensures old(Supplied()) ==> k == Min(old(Room()), |old(sock.inbound)|)
    {
      k := 0;
      assert Buffered() + sock.inbound[..0] == Buffered();
      var waiting := Waiting();
      if waiting > 0 {
        k := FillRxBuffer();
      }
    }

    /** Drops what is buffered, after one more fill when something waits. */
    method Flush() returns (ghost dropped: seq<bv8>)
      requires Valid()
      modifies this`rxBuff, this`fillPos, this`fillSize, this`failed, rxBuff, sock
      ensures Valid() && Buffered() == []
      ensures rxBuff == old(rxBuff) || (old(rxBuff) == null && fresh(rxBuff))
      ensures dropped + Unread() == old(Unread()) && old(Buffered()) <= dropped
      ensures !open || old(sock.Reports()) == 0 ==> dropped == old(Buffered())
      ensures old(Supplied()) ==> dropped == old(Buffered()) + old(sock.inbound)[..Min(old(Room()), |old(sock.inbound)|)]
    {
      var k := FillIfWaiting();
      dropped := Buffered();
      assert old(Buffered()) + old(sock.inbound)[..0] == old(Buffered());
      fillPos := fillSize;
      assert [] + sock.inbound == sock.inbound;
    }

    /** Closing frees the buffer but keeps its two positions: the client can be used again
        exactly if everything buffered had been read. */
    method TcpClose()
      requires Valid()
      modifies this`open, this`rxBuff
      ensures !open && rxBuff == null && fillPos == old(fillPos) && fillSize == old(fillSize)
      ensures Valid() <==> old(Buffered()) == []
    {
      open, rxBuff := false, null;
    }

    method Reconnect(next: Socket)
      requires Valid()
      modifies this`sock, this`open
      ensures Valid() && open && sock == next && Buffered() == old(Buffered())
    {
      sock, open := next, true;
    }
  }

  /** Anything received and not read before the close is still counted afterwards, though the
      buffer that held it is gone. */
  method CloseStrandsBytes(c: Client) returns (n: int)
    requires c.Valid() && c.Buffered() != []
    modifies c`open, c`rxBuff, c`failed, c.sock`asked
    ensures c.rxBuff == null && !c.Valid() && n > 0
  {
    c.TcpClose();
    n := c.TcpAvailable();
  }

  /** It takes no more than one refill that brings something. */
  method FirstFillIsStranded(sock: Socket, size: nat) returns (got: nat, n: int)
    requires size > 0
    modifies sock
    ensures got == if old(sock.Reports()) > 0 then old(sock.Returns(size)) else 0
    ensures got > 0 ==> n > 0
  {
    var c := new Client(size, sock, true);
    got := c.FillRxBuffer();
    n := 0;
    if got > 0 {
      n := CloseStrandsBytes(c);
    }
  }

  /** A client that has received one byte, of which it has read nothing. */
  method StrandedByte(sock: Socket) returns (n: int)
    modifies sock`asked
    ensures n > 0
  {
    var c := new Client(4, sock, true);
    c.rxBuff := new bv8[4];
    c.Append([65]);
    n := CloseStrandsBytes(c);
  }

  /** With one byte buffered and one more to come, a read of three returns one. */
  method ShortRead() returns (n: int)
    ensures n == 1
  {
    var sock := new Socket([66], _ => Bytes(1), _ => Bytes(4));
    var c := new Client(4, sock, true);
    c.rxBuff := new bv8[4];
    c.Append([65]);
    var dst := new bv8[3];
    n := c.TcpRead(dst, 3);
  }

  // -------------------------------------------------------------- whole runs

  datatype Op = Fill | Read(len: nat) | Peek | Avail | Drop

  /** What left the queue: bytes handed to a reader, or dropped by a flush. */
  datatype Piece = Given(bytes: seq<bv8>) | Dropped(bytes: seq<bv8>)

  function Join(log: seq<Piece>): (s: seq<bv8>) {
    if log == [] then [] else log[0].bytes + Join(log[1..])
  }

  predicate Fits(op: Op, piece: Piece) {
    match op
    case Read(len) => piece.Given? && |piece.bytes| <= len
    case Drop => piece.Dropped?
    case _ => piece.bytes == []
  }

  /** Asking how much is there takes nothing. */
  method Ask(c: Client)
    requires c.Valid()
    modifies c`failed, c.sock`asked
    ensures c.Valid() && c.Unread() == old(c.Unread())
  {
    var n := c.TcpAvailable();
  }

  method Do(c: Client, op: Op) returns (ghost piece: Piece)
    requires c.Valid()
    modifies c, c.sock, c.rxBuff
    ensures c.Valid() && c.sock == old(c.sock) && (c.rxBuff == old(c.rxBuff) || fresh(c.rxBuff))
    ensures piece.bytes + c.Unread() == old(c.Unread()) && Fits(op, piece)
  {
    hide Client.Valid, Client.Unread, Client.Buffered;
    ghost var queue := c.Unread();
    piece := Given([]);
    assert [] + queue == queue;
    match op {
      case Fill =>
        var n := c.FillRxBuffer();
      case Read(len) =>
        var dst := new bv8[len];
        var n := c.TcpRead(dst, len);
        if n > 0 {
          piece := Given(queue[..n]);
        }
      case Peek =>
        var r := c.TcpPeek();
      case Avail =>
        Ask(c);
      case Drop =>
        ghost var dropped := c.Flush();
        piece := Dropped(dropped);
    }
  }

  /** Over any run of operations within one connection, what was given out and dropped, in
      the order of the calls, followed by what is still to come is what the peer sent. */
  method Run(c: Client, ops: seq<Op>) returns (ghost log: seq<Piece>)
    requires c.Valid()
    modifies c, c.sock, c.rxBuff
    ensures c.Valid() && c.sock == old(c.sock)
    ensures Join(log) + c.Unread() == old(c.Unread())
    ensures |log| == |ops| && forall i | 0 <= i < |ops| :: Fits(ops[i], log[i])
    decreases |ops|
  {
    hide Client.Valid, Client.Unread, Fits;
    log := [];
    if ops == [] {
      assert [] + c.Unread() == c.Unread();
    } else {
      ghost var piece := Do(c, ops[0]);
      ghost var rest := Run(c, ops[1..]);
      log := [piece] + rest;
      assert log[1..] == rest;
      assert piece.bytes + (Join(rest) + c.Unread()) == Join(log) + c.Unread();
      assert forall i | 1 <= i < |ops| :: ops[i] == ops[1..][i - 1] && log[i] == rest[i - 1];
    }
  }
}
