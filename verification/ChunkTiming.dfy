/** The decoder fed by a connection on which the body arrives bit by bit, in any pieces, and
    exactly which pieces it can stand. */
module ChunkTiming {
  import opened Text
  import opened HttpReader
  import opened ChunkFraming

  /** Calls the decoder once after each arrival of `arrivals[i]` more bytes. */
  function RunFeed(cs: ChunkState, s: string, ready: nat, arrivals: seq<nat>, bufLen: nat): (r: Decoded)
    requires ready <= |s|
    decreases |arrivals|
  {
    if arrivals == [] then Decoded("", false)
    else
      var now := Min(ready + arrivals[0], |s|);
      var step := ChunkStep(cs, s, Min(now, bufLen), false);
      if step.olen == -1 then Decoded("", true)
      else
        var rest := RunFeed(step.next, s[step.taken..], now - step.taken, arrivals[1..], bufLen);
        Decoded(step.copied + rest.payload, rest.complete)
  }

  /** Where the next read starts: at a size line, inside a chunk with `left` to come, or behind
      the CR of a chunk's closing CRLF. */
  datatype Place = AtSize | InData(left: string, size: nat) | BehindCr(size: nat)

  predicate Sits(cs: ChunkState, place: Place) {
    match place
    case AtSize => cs.state == 0
    case InData(left, size) => InChunk(cs, left, size)
    case BehindCr(size) => cs == ChunkState(1, size, size + 1)
  }

  function Pending(place: Place, todo: seq<Chunk>, last: Last): (s: string) {
    match place
    case AtSize => Wire(todo, last)
    case InData(left, _) => left + "\r\n" + Wire(todo, last)
    case BehindCr(_) => "\n" + Wire(todo, last)
  }

  function Due(place: Place, todo: seq<Chunk>): (s: string) {
    if place.InData? then place.left + Body(todo) else Body(todo)
  }

  function NextLine(todo: seq<Chunk>, last: Last): (s: string) {
    if todo == [] then SizeLine(last.digits, last.ext) else SizeLine(todo[0].digits, todo[0].ext)
  }

  /** What becomes of a read: the decoder goes on at another place, having handed out `data`, and
      a carriage return that is none of it if `cr`; or it reports completion; or it has lost its
      way and takes the rest of an extension for data. */
  datatype Fate =
    | Goes(place: Place, todo: seq<Chunk>, taken: nat, data: string, cr: bool)
    | Completes
    | Strays

  /** The fate of a read that may take `limit` bytes, told from the framing alone. */
  function FateOf(place: Place, todo: seq<Chunk>, last: Last, limit: nat): (f: Fate)
    requires limit <= |Pending(place, todo, last)|
    ensures f.Goes? ==> f.taken <= limit && |Pending(place, todo, last)| == f.taken + |Pending(f.place, f.todo, last)|
  {
    match place
    case AtSize =>
      if limit == 0 then Goes(AtSize, todo, 0, "", false)
      else if todo == [] then Completes
      else if |NextLine(todo, last)| <= limit
      then Goes(InData(todo[0].data, |todo[0].data|), todo[1..], |NextLine(todo, last)|, "", false)
      else if limit <= |todo[0].digits| || todo[0].ext == "" then Completes
      else Strays
    case InData(left, size) =>
      var n := LineLen(left + "\r\n" + Wire(todo, last), limit);
      ClosingLineLen(left, Wire(todo, last), limit);
      if n <= |left| then (if limit == 0 && left == "" then Completes else Goes(InData(left[n..], size), todo, n, left[..n], false))
      else if n == |left| + 1 then Goes(BehindCr(size), todo, n, left, true)
      else Goes(AtSize, todo, n, left, false)
    case BehindCr(size) =>
      if limit == 0 then Goes(place, todo, 0, "", false) else Goes(AtSize, todo, 1, "", false)
  }

  lemma ClosingLineLen(left: string, rest: string, limit: nat)
    requires limit <= |left + "\r\n" + rest|
    ensures LineLen(left + "\r\n" + rest, limit) <= |left| + 2
  {
    assert (left + "\r\n" + rest)[|left| + 1] == '\n';
  }

  // ------------------------------------------------------ one read at a time

  /** A read of a beginning of a size line: the digits count as soon as an extension begins, and
      before that nothing does. */
  lemma CutSizeLine(digits: string, ext: string, bufLen: nat, limit: nat)
    requires ValidSizeLine(digits, ext, bufLen) && Value(digits, 16) <= INT_MAX
    requires 0 < limit < |SizeLine(digits, ext)|
    ensures SizeIn(SizeLine(digits, ext)[..limit]) == if limit <= |digits| || ext == "" then -1 else Value(digits, 16)
  {
    hide Find, Match, Hex2IntFrom, Value, CString;
    var s := SizeLine(digits, ext)[..limit];
    SizeLineLetters(digits, ext, bufLen);
    CStringOfNulFree(s, "");
    assert s + "" == s;
    if limit <= |digits| || ext == "" {
      assert s == if limit <= |digits| then digits[..limit] else digits + "\r";
      assert ';' !in s && '\n' !in s;
      NotContained(s, ";", 0);
      FindsNothing(s, ";");
      NotContained(s, "\r\n", 1);
      FindsNothing(s, "\r\n");
    } else {
      assert s == digits + ";" + s[|digits| + 1..];
      NotContained(digits, ";", 0);
      FindsFirst(digits, ";", s[|digits| + 1..]);
      assert s[..|digits|] == digits == "" + digits;
      EmptyNumeral();
      Hex2IntIsValue("", digits);
    }
  }

  lemma SizeLineLetters(digits: string, ext: string, bufLen: nat)
    requires ValidSizeLine(digits, ext, bufLen)
    ensures '\0' !in SizeLine(digits, ext) && ';' !in digits && '\r' !in digits && '\n' !in digits
    ensures forall i | 0 <= i < |SizeLine(digits, ext)| - 1 :: SizeLine(digits, ext)[i] != '\n'
  {
    var line := SizeLine(digits, ext);
    forall i | 0 <= i < |line| - 1
      ensures line[i] != '\n'
    {
      assert i < |digits| ==> line[i] == digits[i] && digits[i] in digits;
      assert |digits| <= i < |digits| + |ext| ==> line[i] == ext[i - |digits|] && ext[i - |digits|] in ext;
    }
  }

  lemma CutSizeStep(cs: ChunkState, digits: string, ext: string, bufLen: nat, rest: string, limit: nat)
    requires ValidSizeLine(digits, ext, bufLen) && Value(digits, 16) <= INT_MAX && cs.state == 0
    requires 0 < limit < |SizeLine(digits, ext)|
    ensures var size := if limit <= |digits| || ext == "" then -1 else Value(digits, 16);
            ChunkStep(cs, SizeLine(digits, ext) + rest, limit, false) ==
            Step(ChunkState(1, size, 0), limit, if size < 1 then -1 else 0, "")
  {
    hide SizeIn, Value, SizeLine;
    var line := SizeLine(digits, ext);
    SizeLineLetters(digits, ext, bufLen);
    LineLenIs(line + rest, limit, limit);
    CutSizeLine(digits, ext, bufLen, limit);
    assert (line + rest)[..limit] == line[..limit];
  }

  /** The size line of a chunk counts as the end of the body exactly when it is cut before its
      extensions begin. */
  lemma SizeReadCompletesIff(cs: ChunkState, c: Chunk, bufLen: nat, rest: string, limit: nat)
    requires ValidChunk(c, bufLen) && cs.state == 0 && limit <= |SizeLine(c.digits, c.ext) + rest|
    ensures ChunkStep(cs, SizeLine(c.digits, c.ext) + rest, limit, false).olen == -1 <==>
            0 < limit && (limit <= |c.digits| || (c.ext == "" && limit == |c.digits| + 1))
  {
    hide ChunkStep, Value;
    if limit == 0 {
      IdleStep(cs, SizeLine(c.digits, c.ext) + rest);
    } else if limit < |SizeLine(c.digits, c.ext)| {
      CutSizeStep(cs, c.digits, c.ext, bufLen, rest, limit);
    } else {
      SizeStep(cs, c.digits, c.ext, bufLen, rest, limit, false);
    }
  }

  /** Inside a chunk, completion is reported exactly by an empty read in front of its closing
      CRLF. */
  lemma DataReadCompletesIff(cs: ChunkState, left: string, size: int, rest: string, limit: nat)
    requires InChunk(cs, left, size) && limit <= |left + "\r\n" + rest|
    ensures ChunkStep(cs, left + "\r\n" + rest, limit, false).olen == -1 <==> left == "" && limit == 0
  {
    hide ChunkStep;
    DataStep(cs, left, size, rest, limit);
  }

  lemma IdleStep(cs: ChunkState, s: string)
    requires cs.state == 0
    ensures ChunkStep(cs, s, 0, false) == Step(ChunkState(0, -1, 0), 0, 0, "")
  {
  }

  /** The decoder's call has the fate that the framing tells. */
  ghost predicate HasFate(step: Step, place: Place, todo: seq<Chunk>, last: Last, f: Fate) {
    match f
    case Completes => step.olen == -1
    case Strays => step.olen != -1
    case Goes(next, rest, taken, data, cr) =>
      && step.olen != -1 && step.taken == taken <= |Pending(place, todo, last)|
      && step.copied == (if cr then data + "\r" else data)
      && Sits(step.next, next) && Pending(place, todo, last)[taken..] == Pending(next, rest, last)
      && Due(place, todo) == data + Due(next, rest)
  }

  lemma FateAtSize(cs: ChunkState, todo: seq<Chunk>, last: Last, bufLen: nat, limit: nat)
    requires ValidChunks(todo, bufLen) && ValidLast(last, bufLen) && cs.state == 0 && limit <= |Wire(todo, last)|
    ensures HasFate(ChunkStep(cs, Wire(todo, last), limit, false), AtSize, todo, last, FateOf(AtSize, todo, last, limit))
  {
    hide ChunkStep, Value, LineLen;
    if limit == 0 {
      IdleStep(cs, Wire(todo, last));
      assert Wire(todo, last)[0..] == Wire(todo, last) && Body(todo) == "" + Body(todo);
    } else if todo == [] {
      if limit < |SizeLine(last.digits, last.ext)| {
        CutSizeStep(cs, last.digits, last.ext, bufLen, last.trailers, limit);
      } else {
        SizeStep(cs, last.digits, last.ext, bufLen, last.trailers, limit, false);
      }
    } else {
      var c := todo[0];
      var rest := c.data + "\r\n" + Wire(todo[1..], last);
      if limit < |SizeLine(c.digits, c.ext)| {
        CutSizeStep(cs, c.digits, c.ext, bufLen, rest, limit);
      } else {
        SizeStep(cs, c.digits, c.ext, bufLen, rest, limit, false);
        assert (SizeLine(c.digits, c.ext) + rest)[|SizeLine(c.digits, c.ext)|..] == rest;
        assert Body(todo) == "" + (c.data + Body(todo[1..]));
      }
    }
  }

  lemma FateInData(cs: ChunkState, left: string, size: nat, todo: seq<Chunk>, last: Last, limit: nat)
    requires InChunk(cs, left, size) && limit <= |left + "\r\n" + Wire(todo, last)|
    ensures HasFate(ChunkStep(cs, left + "\r\n" + Wire(todo, last), limit, false), InData(left, size), todo, last,
                    FateOf(InData(left, size), todo, last, limit))
  {
    hide ChunkStep, Wire, Body;
    var rest := Wire(todo, last);
    var s := left + "\r\n" + rest;
    var n := LineLen(s, limit);
    DataStep(cs, left, size, rest, limit);
    if n == 0 {
      assert s[0..] == s && left[0..] == left && left[..0] == "" && left + Body(todo) == "" + (left + Body(todo));
    } else if n <= |left| {
      assert s[n..] == left[n..] + "\r\n" + rest && left + Body(todo) == left[..n] + (left[n..] + Body(todo));
    } else if n == |left| + 1 {
      assert s[n..] == "\n" + rest;
    } else {
      assert s[n..] == rest;
    }
  }

  lemma FateBehindCr(cs: ChunkState, size: nat, todo: seq<Chunk>, last: Last, limit: nat)
    requires Sits(cs, BehindCr(size)) && limit <= |"\n" + Wire(todo, last)|
    ensures HasFate(ChunkStep(cs, "\n" + Wire(todo, last), limit, false), BehindCr(size), todo, last,
                    FateOf(BehindCr(size), todo, last, limit))
  {
    hide Wire, Body;
    var s := "\n" + Wire(todo, last);
    assert Body(todo) == "" + Body(todo) && s[0..] == s && s[1..] == Wire(todo, last);
    if limit > 0 {
      LineFeedStep(size, Wire(todo, last), limit);
    }
  }

  lemma FateIsStep(cs: ChunkState, place: Place, todo: seq<Chunk>, last: Last, bufLen: nat, limit: nat)
    requires ValidChunks(todo, bufLen) && ValidLast(last, bufLen) && Sits(cs, place)
    requires limit <= |Pending(place, todo, last)|
    ensures HasFate(ChunkStep(cs, Pending(place, todo, last), limit, false), place, todo, last, FateOf(place, todo, last, limit))
    ensures FateOf(place, todo, last, limit).Goes? ==> ValidChunks(FateOf(place, todo, last, limit).todo, bufLen)
  {
    hide ChunkStep, HasFate, Wire, Value;
    match place {
      case AtSize => FateAtSize(cs, todo, last, bufLen, limit);
      case InData(left, size) => FateInData(cs, left, size, todo, last, limit);
      case BehindCr(size) => FateBehindCr(cs, size, todo, last, limit);
    }
  }

  // ------------------------------------------------------------- whole runs

  /** How a run ends: still open, complete with nothing left to come, complete too early, or
      astray. */
  datatype End = Open | AtEnd | Early | Astray

  datatype Course = Course(end: End, splits: nat)

  /** The course of a run, told from the framing and the arrivals alone: its end, and how many
      closing CRLFs a read split. */
  function CourseOf(place: Place, todo: seq<Chunk>, last: Last, ready: nat, arrivals: seq<nat>, bufLen: nat): (c: Course)
    requires ready <= |Pending(place, todo, last)|
    decreases |arrivals|
  {
    if arrivals == [] then Course(Open, 0)
    else
      var now := Min(ready + arrivals[0], |Pending(place, todo, last)|);
      match FateOf(place, todo, last, Min(now, bufLen))
      case Completes => Course(if Due(place, todo) == "" then AtEnd else Early, 0)
      case Strays => Course(Astray, 0)
      case Goes(next, rest, taken, _, cr) =>
        var c := CourseOf(next, rest, last, now - taken, arrivals[1..], bufLen);
        c.(splits := c.splits + if cr then 1 else 0)
  }

  /** What a run that does not go astray hands out, told from the framing and the arrivals alone. */
  function Told(place: Place, todo: seq<Chunk>, last: Last, ready: nat, arrivals: seq<nat>, bufLen: nat): (r: Decoded)
    requires ready <= |Pending(place, todo, last)|
    decreases |arrivals|
  {
    if arrivals == [] then Decoded("", false)
    else
      var now := Min(ready + arrivals[0], |Pending(place, todo, last)|);
      match FateOf(place, todo, last, Min(now, bufLen))
      case Completes => Decoded("", true)
      case Strays => Decoded("", false)
      case Goes(next, rest, taken, data, cr) =>
        var r := Told(next, rest, last, now - taken, arrivals[1..], bufLen);
        Decoded((if cr then data + "\r" else data) + r.payload, r.complete)
  }

  /** The arrivals never cut where the decoder cannot stand it: no size line of a chunk is cut, no
      read ends between a chunk's closing CR and LF, and while anything is due no read is empty in
      front of a closing CRLF. */
  predicate Timely(place: Place, todo: seq<Chunk>, last: Last, ready: nat, arrivals: seq<nat>, bufLen: nat)
    requires ready <= |Pending(place, todo, last)|
  {
    var c := CourseOf(place, todo, last, ready, arrivals, bufLen);
    c.splits == 0 && (c.end == Open || c.end == AtEnd)
  }

  /** What a run hands out, for every course but an astray one: complete or not as the course says,
      and what was due at its end less what never came, plus one byte for each split. */
  ghost predicate RunFits(r: Decoded, due: string, c: Course) {
    && (r.complete <==> c.end == AtEnd || c.end == Early)
    && |r.payload| <= |due| + c.splits && (c.splits == 0 ==> r.payload <= due)
    && (c.end == AtEnd ==> |r.payload| == |due| + c.splits)
    && (c.end == Early ==> |r.payload| < |due| + c.splits)
  }

  lemma RunUnfolds(cs: ChunkState, s: string, ready: nat, arrivals: seq<nat>, bufLen: nat, step: Step)
    requires ready <= |s| && arrivals != []
    requires step == ChunkStep(cs, s, Min(Min(ready + arrivals[0], |s|), bufLen), false)
    ensures step.olen == -1 ==> RunFeed(cs, s, ready, arrivals, bufLen) == Decoded("", true)
    ensures step.olen != -1 ==>
      var now := Min(ready + arrivals[0], |s|);
      var rest := RunFeed(step.next, s[step.taken..], now - step.taken, arrivals[1..], bufLen);
      RunFeed(cs, s, ready, arrivals, bufLen) == Decoded(step.copied + rest.payload, rest.complete)
  {
    hide ChunkStep, LineLen;
  }

  lemma CourseUnfolds(place: Place, todo: seq<Chunk>, last: Last, ready: nat, arrivals: seq<nat>, bufLen: nat, f: Fate)
    requires ready <= |Pending(place, todo, last)| && arrivals != []
    requires f == FateOf(place, todo, last, Min(Min(ready + arrivals[0], |Pending(place, todo, last)|), bufLen))
    ensures
      var now := Min(ready + arrivals[0], |Pending(place, todo, last)|);
      var c := CourseOf(place, todo, last, ready, arrivals, bufLen);
      var t := Told(place, todo, last, ready, arrivals, bufLen);
      match f
      case Completes => c == Course(if Due(place, todo) == "" then AtEnd else Early, 0) && t == Decoded("", true)
      case Strays => c.end == Astray
      case Goes(next, rest, taken, data, cr) =>
        var c' := CourseOf(next, rest, last, now - taken, arrivals[1..], bufLen);
        var t' := Told(next, rest, last, now - taken, arrivals[1..], bufLen);
        && c == c'.(splits := c'.splits + if cr then 1 else 0)
        && t == Decoded((if cr then data + "\r" else data) + t'.payload, t'.complete)
  {
    hide FateOf, Pending;
  }

  lemma RunFitsAfter(r: Decoded, due: string, c: Course, data: string, cr: bool)
    requires RunFits(r, due, c)
    ensures RunFits(Decoded((if cr then data + "\r" else data) + r.payload, r.complete), data + due,
                    c.(splits := c.splits + if cr then 1 else 0))
  {
  }

  /** The decoder, which knows nothing of the chunks but what it has read, hands out what the
      framing tells. */
  lemma {:induction false} RunTakesCourse(
      cs: ChunkState, place: Place, todo: seq<Chunk>, last: Last, ready: nat, arrivals: seq<nat>, bufLen: nat)
    requires ValidChunks(todo, bufLen) && ValidLast(last, bufLen) && Sits(cs, place)
    requires ready <= |Pending(place, todo, last)|
    requires CourseOf(place, todo, last, ready, arrivals, bufLen).end != Astray
    ensures var r := RunFeed(cs, Pending(place, todo, last), ready, arrivals, bufLen);
            && r == Told(place, todo, last, ready, arrivals, bufLen)
            && RunFits(r, Due(place, todo), CourseOf(place, todo, last, ready, arrivals, bufLen))
    decreases |arrivals|
  {
    hide ChunkStep, RunFeed, CourseOf, Told, FateOf, Pending, Due, Sits, ValidChunks, ValidLast, RunFits;
    var s := Pending(place, todo, last);
    if arrivals == [] {
      NothingRead(cs, s, ready, bufLen, Due(place, todo));
      NothingArrives(place, todo, last, ready, bufLen);
    } else {
      var now := Min(ready + arrivals[0], |s|);
      var limit := Min(now, bufLen);
      var step := ChunkStep(cs, s, limit, false);
      var f := FateOf(place, todo, last, limit);
      FateIsStep(cs, place, todo, last, bufLen, limit);
      CourseUnfolds(place, todo, last, ready, arrivals, bufLen, f);
      RunUnfolds(cs, s, ready, arrivals, bufLen, step);
      if f.Goes? {
        RunTakesCourse(step.next, f.place, f.todo, last, now - f.taken, arrivals[1..], bufLen);
        var r := RunFeed(step.next, Pending(f.place, f.todo, last), now - f.taken, arrivals[1..], bufLen);
        var c := CourseOf(f.place, f.todo, last, now - f.taken, arrivals[1..], bufLen);
        RunFitsAfter(r, Due(f.place, f.todo), c, f.data, f.cr);
      } else {
        CompletedFits(Due(place, todo));
      }
    }
  }

  lemma NothingRead(cs: ChunkState, s: string, ready: nat, bufLen: nat, due: string)
    requires ready <= |s|
    ensures RunFeed(cs, s, ready, [], bufLen) == Decoded("", false)
    ensures RunFits(Decoded("", false), due, Course(Open, 0))
  {
  }

  lemma NothingArrives(place: Place, todo: seq<Chunk>, last: Last, ready: nat, bufLen: nat)
    requires ready <= |Pending(place, todo, last)|
    ensures CourseOf(place, todo, last, ready, [], bufLen) == Course(Open, 0)
    ensures Told(place, todo, last, ready, [], bufLen) == Decoded("", false)
  {
  }

  lemma CompletedFits(due: string)
    ensures RunFits(Decoded("", true), due, Course(if due == "" then AtEnd else Early, 0))
  {
  }

  /** Over every schedule of arrivals that cuts no extension, and does not both split a CRLF and
      end too early: a complete run has handed out the whole body exactly when the arrivals were
      timely. Otherwise it has handed out less, or a carriage return too many. */
  lemma RunIsExactIff(
      cs: ChunkState, place: Place, todo: seq<Chunk>, last: Last, ready: nat, arrivals: seq<nat>, bufLen: nat)
    requires ValidChunks(todo, bufLen) && ValidLast(last, bufLen) && Sits(cs, place)
    requires ready <= |Pending(place, todo, last)|
    requires var c := CourseOf(place, todo, last, ready, arrivals, bufLen);
             c.end != Astray && (c.end == Early ==> c.splits == 0)
    ensures var r := RunFeed(cs, Pending(place, todo, last), ready, arrivals, bufLen);
            r.complete ==>
              && (r.payload == Due(place, todo) <==> Timely(place, todo, last, ready, arrivals, bufLen))
              && (|r.payload| < |Due(place, todo)| <==> CourseOf(place, todo, last, ready, arrivals, bufLen).end == Early)
  {
    hide RunFeed, CourseOf, Pending, Due, Sits, ValidChunks, ValidLast;
    RunTakesCourse(cs, place, todo, last, ready, arrivals, bufLen);
  }

  /** Under timely arrivals the output so far is always the beginning of the body, and when
      completion is first reported it is the whole body. */
  lemma TimelyRunIsExact(
      cs: ChunkState, place: Place, todo: seq<Chunk>, last: Last, ready: nat, arrivals: seq<nat>, bufLen: nat)
    requires ValidChunks(todo, bufLen) && ValidLast(last, bufLen) && Sits(cs, place)
    requires ready <= |Pending(place, todo, last)|
    requires Timely(place, todo, last, ready, arrivals, bufLen)
    ensures var r := RunFeed(cs, Pending(place, todo, last), ready, arrivals, bufLen);
            r.payload <= Due(place, todo) && (r.complete ==> r.payload == Due(place, todo))
  {
    hide RunFeed, CourseOf, Pending, Due, Sits, ValidChunks, ValidLast;
    RunTakesCourse(cs, place, todo, last, ready, arrivals, bufLen);
  }

  // --------------------------------------------------------- untimely runs

  const START := ChunkState(0, 0, 0)
  const A := Chunk("1", "", "a")
  const B := Chunk("1", "", "b")
  const CR := Chunk("1", "", "\r")
  const WITH_EXTENSION := Chunk("1", ";x", "a")

  /** The fates of reading a one-letter chunk without extensions. */
  lemma SmallFates(c: Chunk, todo: seq<Chunk>, limit: nat)
    requires c.digits == "1" && c.ext == "" && |c.data| == 1 && c.data[0] != '\n'
    requires limit <= 3
    ensures |Wire([c] + todo, LAST)| >= 3 && |Pending(InData(c.data, 1), todo, LAST)| >= 3
    ensures FateOf(AtSize, [c] + todo, LAST, limit) ==
            if limit == 0 then Goes(AtSize, [c] + todo, 0, "", false)
            else if limit == 3 then Goes(InData(c.data, 1), todo, 3, "", false) else Completes
    ensures limit == 1 ==> FateOf(InData(c.data, 1), todo, LAST, limit) == Goes(InData("", 1), todo, 1, c.data, false)
    ensures limit == 2 ==> FateOf(InData(c.data, 1), todo, LAST, limit) == Goes(BehindCr(1), todo, 2, c.data, true)
    ensures FateOf(InData("", 1), todo, LAST, 0) == Completes
  {
    hide Wire;
    WireUnfolds(c, todo);
    assert ([c] + todo)[1..] == todo;
    var s := c.data + "\r\n" + Wire(todo, LAST);
    assert s[0] == c.data[0] && s[1] == '\r' && s[2] == '\n';
    if limit == 1 || limit == 2 { LineLenIs(s, limit, limit); }
    assert c.data[1..] == "" && c.data[..1] == c.data;
  }

  lemma WireUnfolds(c: Chunk, todo: seq<Chunk>)
    ensures Wire([c] + todo, LAST) == SizeLine(c.digits, c.ext) + (c.data + "\r\n" + Wire(todo, LAST))
  {
    assert ([c] + todo)[1..] == todo;
  }

  lemma ToldUnfolds(place: Place, todo: seq<Chunk>, ready: nat, a: nat, arrivals: seq<nat>)
    requires ready + a <= |Pending(place, todo, LAST)| && ready + a <= 2048
    ensures
      var f := FateOf(place, todo, LAST, ready + a);
      Told(place, todo, LAST, ready, [a] + arrivals, 2048) ==
      if !f.Goes? then Decoded("", f.Completes?)
      else
        var r := Told(f.place, f.todo, LAST, ready + a - f.taken, arrivals, 2048);
        Decoded((if f.cr then f.data + "\r" else f.data) + r.payload, r.complete)
  {
    hide FateOf, Pending;
    assert ([a] + arrivals)[1..] == arrivals;
  }

  predicate OneLetter(c: Chunk) { c.digits == "1" && c.ext == "" && |c.data| == 1 && c.data[0] != '\n' }

  lemma WholeSizeLine(c: Chunk, todo: seq<Chunk>, arrivals: seq<nat>)
    requires OneLetter(c)
    ensures Told(AtSize, [c] + todo, LAST, 0, [3] + arrivals, 2048) == Told(InData(c.data, 1), todo, LAST, 0, arrivals, 2048)
  {
    hide FateOf, Wire, Told;
    SmallFates(c, todo, 3);
    ToldUnfolds(AtSize, [c] + todo, 0, 3, arrivals);
    var r := Told(InData(c.data, 1), todo, LAST, 0, arrivals, 2048);
    assert "" + r.payload == r.payload;
  }

  lemma CutDigit(c: Chunk, todo: seq<Chunk>)
    requires OneLetter(c)
    ensures Told(AtSize, [c] + todo, LAST, 0, [1], 2048) == Decoded("", true)
  {
    hide FateOf, Wire, Told;
    SmallFates(c, todo, 1);
    ToldUnfolds(AtSize, [c] + todo, 0, 1, []);
    assert [1] + [] == [1];
  }

  lemma EmptyRead(c: Chunk, todo: seq<Chunk>)
    requires OneLetter(c)
    ensures Told(InData(c.data, 1), todo, LAST, 0, [1, 0], 2048) == Decoded(c.data, true)
  {
    hide FateOf, Wire, Told;
    SmallFates(c, todo, 1);
    SmallFates(c, todo, 0);
    ToldUnfolds(InData(c.data, 1), todo, 0, 1, [0]);
    ToldUnfolds(InData("", 1), todo, 0, 0, []);
    assert [1] + [0] == [1, 0] && [0] + [] == [0] && c.data + "" == c.data;
  }

  lemma SplitRead(c: Chunk, todo: seq<Chunk>, arrivals: seq<nat>)
    requires OneLetter(c)
    ensures var r := Told(BehindCr(1), todo, LAST, 0, arrivals, 2048);
            Told(InData(c.data, 1), todo, LAST, 0, [2] + arrivals, 2048) == Decoded(c.data + "\r" + r.payload, r.complete)
  {
    hide FateOf, Wire, Told;
    SmallFates(c, todo, 2);
    ToldUnfolds(InData(c.data, 1), todo, 0, 2, arrivals);
  }

  /** A size line cut behind its digit ends the body; so does, with another chunk due, an empty
      read between data and CRLF; a read that ends behind the CR hands it out. */
  lemma UntimelyTold()
    ensures Told(AtSize, [A], LAST, 0, [1], 2048) == Decoded("", true)
    ensures Told(AtSize, [A, B], LAST, 0, [3, 1, 0], 2048) == Decoded("a", true)
    ensures Told(AtSize, [A], LAST, 0, [3, 2], 2048) == Decoded("a\r", false)
  {
    hide FateOf, Wire, Told;
    assert [A] + [] == [A] && [A] + [B] == [A, B] && [3] + [1, 0] == [3, 1, 0] && [3] + [2] == [3, 2] && [2] + [] == [2];
    CutDigit(A, []);
    WholeSizeLine(A, [B], [1, 0]);
    EmptyRead(A, [B]);
    WholeSizeLine(A, [], [2]);
    SplitRead(A, [], []);
    NothingArrives(BehindCr(1), [], LAST, 0, 2048);
    assert "a" + "\r" + "" == "a\r";
  }

  /** A split and an early end can cancel, when the next chunk begins with what the split put
      out: the output is the body, though the arrivals were not timely. */
  lemma FaultsCanCancel()
    ensures Told(AtSize, [A, CR], LAST, 0, [3, 2, 1, 1], 2048) == Decoded(Body([A, CR]), true)
    ensures !Timely(AtSize, [A, CR], LAST, 0, [3, 2, 1, 1], 2048)
  {
    hide FateOf, Wire, Told, CourseOf;
    assert [A] + [CR] == [A, CR] && [CR] + [] == [CR] && [3] + [2, 1, 1] == [3, 2, 1, 1] && [2] + [1, 1] == [2, 1, 1];
    WholeSizeLine(A, [CR], [2, 1, 1]);
    SplitRead(A, [CR], [1, 1]);
    LineFeedRead([CR], [1]);
    CutDigit(CR, []);
    assert [1] + [1] == [1, 1] && "a" + "\r" + "" == "a\r";
    BodyOfCr();
    NotTimely();
  }

  lemma LineFeedRead(todo: seq<Chunk>, arrivals: seq<nat>)
    ensures Told(BehindCr(1), todo, LAST, 0, [1] + arrivals, 2048) == Told(AtSize, todo, LAST, 0, arrivals, 2048)
  {
    hide Wire, Told;
    ToldUnfolds(BehindCr(1), todo, 0, 1, arrivals);
    var r := Told(AtSize, todo, LAST, 0, arrivals, 2048);
    assert "" + r.payload == r.payload;
  }

  /** Timely arrivals never put out a byte that is not due, but a split does. */
  lemma NotTimely()
    ensures !Timely(AtSize, [A, CR], LAST, 0, [3, 2, 1, 1], 2048)
  {
    hide FateOf, Wire;
    assert [A] + [CR] == [A, CR];
    SmallFates(A, [CR], 3);
    SmallFates(A, [CR], 2);
    assert [3, 2, 1, 1][1..] == [2, 1, 1];
    var c := CourseOf(InData("a", 1), [CR], LAST, 0, [2, 1, 1], 2048);
    assert c.splits > 0;
    assert CourseOf(AtSize, [A, CR], LAST, 0, [3, 2, 1, 1], 2048) == c;
  }

  // --------------------------------------------------------- from the decoder

  predicate NoExtensions(todo: seq<Chunk>) { forall i | 0 <= i < |todo| :: todo[i].ext == "" }

  lemma PlainFate(place: Place, todo: seq<Chunk>, last: Last, limit: nat)
    requires limit <= |Pending(place, todo, last)| && NoExtensions(todo)
    ensures var f := FateOf(place, todo, last, limit); !f.Strays? && (f.Goes? ==> NoExtensions(f.todo))
  {
    hide Wire;
  }

  /** Without extensions no schedule leads astray, so the theorem above is about all of them. */
  lemma {:induction false} PlainNeverStrays(place: Place, todo: seq<Chunk>, last: Last, ready: nat, arrivals: seq<nat>, bufLen: nat)
    requires ready <= |Pending(place, todo, last)| && NoExtensions(todo)
    ensures CourseOf(place, todo, last, ready, arrivals, bufLen).end != Astray
    decreases |arrivals|
  {
    hide Pending, FateOf, NoExtensions;
    if arrivals != [] {
      var now := Min(ready + arrivals[0], |Pending(place, todo, last)|);
      PlainFate(place, todo, last, Min(now, bufLen));
      var f := FateOf(place, todo, last, Min(now, bufLen));
      if f.Goes? {
        PlainNeverStrays(f.place, f.todo, last, now - f.taken, arrivals[1..], bufLen);
      }
    }
  }

  /** The decoder in those runs, and one in which the rest of a cut extension is taken for data. */
  lemma UntimelyReads()
    ensures RunFeed(START, Wire([A], LAST), 0, [1], 2048) == Decoded("", true)
    ensures RunFeed(START, Wire([A, B], LAST), 0, [3, 1, 0], 2048) == Decoded("a", true)
    ensures RunFeed(START, Wire([A], LAST), 0, [3, 2], 2048) == Decoded("a\r", false)
    ensures RunFeed(START, Wire([A, CR], LAST), 0, [3, 2, 1, 1], 2048) == Decoded("a\r", true)
    ensures RunFeed(START, Wire([WITH_EXTENSION], LAST), 0, [2, 3], 2048) == Decoded("x", false)
  {
    hide *;
    SmallChunks();
    RunIsTold([A], [1]);
    RunIsTold([A, B], [3, 1, 0]);
    RunIsTold([A], [3, 2]);
    RunIsTold([A, CR], [3, 2, 1, 1]);
    UntimelyTold();
    FaultsCanCancel();
    BodyOfCr();
    ExtensionAsData();
  }

  lemma BodyOfCr()
    ensures Body([A, CR]) == "a\r"
  {
    assert [A, CR][1..] == [CR] && [CR][1..] == [];
    assert Body([CR]) == "\r" + Body([]) && "\r" + "" == "\r";
  }

  lemma SmallChunks()
    ensures ValidChunks([A], 2048) && ValidChunks([A, B], 2048) && ValidChunks([A, CR], 2048)
    ensures NoExtensions([A]) && NoExtensions([A, B]) && NoExtensions([A, CR])
  {
    OneIsOne();
  }

  lemma RunIsTold(todo: seq<Chunk>, arrivals: seq<nat>)
    requires ValidChunks(todo, 2048) && NoExtensions(todo)
    ensures RunFeed(START, Wire(todo, LAST), 0, arrivals, 2048) == Told(AtSize, todo, LAST, 0, arrivals, 2048)
  {
    hide Wire, RunFeed, Told, CourseOf, ValidChunks, ValidLast, NoExtensions;
    LastIsValid();
    PlainNeverStrays(AtSize, todo, LAST, 0, arrivals, 2048);
    RunTakesCourse(START, AtSize, todo, LAST, 0, arrivals, 2048);
  }

  lemma ExtensionAsData()
    ensures RunFeed(START, Wire([WITH_EXTENSION], LAST), 0, [2, 3], 2048) == Decoded("x", false)
  {
    hide ChunkStep, Wire, RunFeed, Value;
    var tail := "a\r\n" + Wire([], LAST);
    var s := SizeLine("1", ";x") + tail;
    assert [WITH_EXTENSION] + [] == [WITH_EXTENSION];
    WireUnfolds(WITH_EXTENSION, []);
    assert Wire([WITH_EXTENSION], LAST) == s;
    OneIsOne();
    CutSizeStep(START, "1", ";x", 2048, tail, 2);
    RunUnfolds(START, s, 0, [2, 3], 2048, Step(ChunkState(1, 1, 0), 2, 0, ""));
    assert s[2..] == "x" + "\r\n" + tail;
    LineLenIs(s[2..], 3, 3);
    DataStep(ChunkState(1, 1, 0), "x", 1, tail, 3);
    RunUnfolds(ChunkState(1, 1, 0), s[2..], 0, [3], 2048, Step(ChunkState(0, 1, 1), 3, 3, "x"));
    assert [2, 3][1..] == [3] && [3][1..] == [];
    NothingRead(ChunkState(0, 1, 1), s[2..][3..], 0, 2048, "");
    assert "" + "x" == "x";
  }

  lemma OneIsOne()
    ensures ValidSizeLine("1", ";x", 2048) && ValidSizeLine("1", "", 2048) && Value("1", 16) == 1
  {
    assert "1"[..0] == "" && "1"[0] == '1';
  }
}
