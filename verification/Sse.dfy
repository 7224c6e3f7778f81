/**
 The incremental SSE parser (internal/parse/sse.go): frames do not depend on how the stream was cut into
 chunks, and a printed stream comes back frame by frame (WHATWG HTML, sections 9.2.5 and 9.2.6).
 */
module Sse {
  import opened Prelude

  const LF: byte := 10
  const CR: byte := 13
  const SPACE: byte := 32

  /** "event:", "data:", "[DONE]" and "message_stop". */
  const EVENT: Bytes := [101, 118, 101, 110, 116, 58]
  const DATA: Bytes := [100, 97, 116, 97, 58]
  const DONE: Bytes := [91, 68, 79, 78, 69, 93]
  const MESSAGE_STOP: Bytes := [109, 101, 115, 115, 97, 103, 101, 95, 115, 116, 111, 112]

  datatype Frame = Frame(kind: Bytes, data: Bytes)

  /** Library calls the parser makes: whitespace trimming, and the "type" field of a JSON payload. */
  datatype Lib = Lib(trim: Bytes -> Bytes, sniff: Bytes -> Bytes)
  {
    /** What the proofs use of trimming: visible ASCII stays, a leading space goes. */
    ghost predicate Lawful() {
      && trim([]) == []
      && (forall b: Bytes :: b != [] && 33 <= b[0] <= 126 ==> trim(b) != [])
      && (forall b: Bytes :: trim([SPACE] + b) == trim(b))
    }
  }

  // ---------- finding an event ----------

  /** What the bytes from one position on say about a blank line starting there. */
  datatype Look = Ordinary | NeedMore | Ends(length: nat)

  function LookAt(buf: Bytes, i: nat): (r: Look)
    requires i < |buf|
    ensures r.Ends? ==> i + r.length <= |buf|
  {
    var n := |buf|;
    if buf[i] == LF then
      if i + 1 >= n then NeedMore else if buf[i + 1] == LF then Ends(2) else Ordinary
    else if buf[i] == CR then
      if i + 1 >= n then NeedMore
      else if buf[i + 1] == CR then Ends(2)
      else if buf[i + 1] == LF then
        if i + 2 >= n then NeedMore
        else if buf[i + 2] != CR then Ordinary
        else if i + 3 >= n then NeedMore
        else if buf[i + 3] == LF then Ends(4)
        else Ordinary
      else Ordinary
    else Ordinary
  }

  /** An event's end and the start of what follows its blank line. */
  datatype Cut = Cut(eventEnd: nat, rest: nat)

  function FindFrom(buf: Bytes, i: nat): (r: Option<Cut>)
    requires i <= |buf|
    ensures r.Some? ==> i <= r.value.eventEnd <= r.value.rest <= |buf|
    ensures r.Some? ==> r.value.eventEnd < |buf| && LookAt(buf, r.value.eventEnd).Ends?
                        && r.value.rest == r.value.eventEnd + LookAt(buf, r.value.eventEnd).length
    ensures r.Some? ==> forall k :: i <= k < r.value.eventEnd ==> LookAt(buf, k) == Ordinary
    decreases |buf| - i
  {
    if i == |buf| then None
    else match LookAt(buf, i)
      case Ordinary => FindFrom(buf, i + 1)
      case NeedMore => None
      case Ends(length) => Some(Cut(i, i + length))
  }

  function Find(buf: Bytes): Option<Cut> {
    FindFrom(buf, 0)
  }

  method FindEvent(buf: Bytes) returns (event: Bytes, rest: Bytes, found: bool)
    ensures found <==> Find(buf).Some?
    ensures found ==> event == buf[..Find(buf).value.eventEnd] && rest == buf[Find(buf).value.rest..]
    ensures !found ==> event == [] && rest == buf
  {
    var n := |buf|;
    var i := 0;
    while i < n
      invariant i <= n && Find(buf) == FindFrom(buf, i)
    {
      if buf[i] == LF {
        if i + 1 >= n {
          return [], buf, false;
        }
        if buf[i + 1] == LF {
          return buf[..i], buf[i + 2..], true;
        }
      } else if buf[i] == CR {
        if i + 1 >= n {
          return [], buf, false;
        }
        if buf[i + 1] == CR {
          return buf[..i], buf[i + 2..], true;
        }
        if buf[i + 1] == LF {
          if i + 2 >= n {
            return [], buf, false;
          }
          if buf[i + 2] == CR {
            if i + 3 >= n {
              return [], buf, false;
            }
            if buf[i + 3] == LF {
              return buf[..i], buf[i + 4..], true;
            }
          }
        }
      }
      i := i + 1;
    }
    return [], buf, false;
  }

  /** A boundary, once found, does not move when bytes arrive. */
  lemma {:induction false} FoundStays(buf: Bytes, more: Bytes, i: nat)
    requires i <= |buf| && FindFrom(buf, i).Some?
    ensures FindFrom(buf + more, i) == FindFrom(buf, i)
    decreases |buf| - i
  {
    assert LookAt(buf, i) != NeedMore;
    assert LookAt(buf + more, i) == LookAt(buf, i);
    if LookAt(buf, i) == Ordinary {
      FoundStays(buf, more, i + 1);
    }
  }

  /** Ordinary bytes in front only shift the boundary. */
  lemma {:induction false} FindShift(pre: Bytes, buf: Bytes, i: nat)
    requires i <= |pre| && forall k :: i <= k < |pre| ==> LookAt(pre + buf, k) == Ordinary
    ensures FindFrom(pre + buf, i) ==
      match Find(buf) case None => None case Some(c) => Some(Cut(|pre| + c.eventEnd, |pre| + c.rest))
    decreases |pre| - i
  {
    if i < |pre| {
      FindShift(pre, buf, i + 1);
    } else {
      FindAfter(pre, buf, 0);
    }
  }

  lemma {:induction false} FindAfter(pre: Bytes, buf: Bytes, i: nat)
    requires i <= |buf|
    ensures FindFrom(pre + buf, |pre| + i) ==
      match FindFrom(buf, i) case None => None case Some(c) => Some(Cut(|pre| + c.eventEnd, |pre| + c.rest))
    decreases |buf| - i
  {
    if i < |buf| {
      assert LookAt(pre + buf, |pre| + i) == LookAt(buf, i);
      if LookAt(buf, i) == Ordinary {
        FindAfter(pre, buf, i + 1);
      }
    }
  }

  // ---------- events and carry ----------

  datatype Cuts = Cuts(events: seq<Bytes>, carry: Bytes)

  function Split(buf: Bytes): Cuts
    decreases |buf|
  {
    match Find(buf)
    case None => Cuts([], buf)
    case Some(c) =>
      var rest := Split(buf[c.rest..]);
      Cuts([buf[..c.eventEnd]] + rest.events, rest.carry)
  }

  lemma {:induction false} SplitSome(buf: Bytes, c: Cut)
    requires Find(buf) == Some(c)
    ensures Split(buf).events == [buf[..c.eventEnd]] + Split(buf[c.rest..]).events
    ensures Split(buf).carry == Split(buf[c.rest..]).carry
  {
  }

  /** Splitting more bytes later is splitting them all at once. */
  lemma {:induction false} SplitAppend(buf: Bytes, more: Bytes)
    ensures Split(buf + more).events == Split(buf).events + Split(Split(buf).carry + more).events
    ensures Split(buf + more).carry == Split(Split(buf).carry + more).carry
    decreases |buf|
  {
    match Find(buf)
    case None =>
      SplitNone(buf);
    case Some(c) =>
      var event, rest := buf[..c.eventEnd], buf[c.rest..];
      SplitAppend(rest, more);
      SplitStep(buf, more, c);
      Glue(event, Split(rest).events, Split(Split(rest).carry + more).events);
  }

  lemma Glue<T>(a: T, b: seq<T>, c: seq<T>)
    ensures [a] + (b + c) == ([a] + b) + c
  {
  }

  lemma GlueSnoc<T>(a: seq<T>, b: T, c: seq<T>)
    ensures a + ([b] + c) == (a + [b]) + c
  {
  }

  lemma {:induction false} SplitNone(buf: Bytes)
    requires Find(buf) == None
    ensures Split(buf) == Cuts([], buf)
  {
  }

  lemma {:induction false} SplitStep(buf: Bytes, more: Bytes, c: Cut)
    requires Find(buf) == Some(c)
    ensures Split(buf).events == [buf[..c.eventEnd]] + Split(buf[c.rest..]).events
    ensures Split(buf).carry == Split(buf[c.rest..]).carry
    ensures Split(buf + more).events == [buf[..c.eventEnd]] + Split(buf[c.rest..] + more).events
    ensures Split(buf + more).carry == Split(buf[c.rest..] + more).carry
  {
    FoundStays(buf, more, 0);
    assert (buf + more)[..c.eventEnd] == buf[..c.eventEnd];
    assert (buf + more)[c.rest..] == buf[c.rest..] + more;
    SplitSome(buf, c);
    SplitSome(buf + more, c);
  }

  lemma {:induction false} CarryHasNoEvent(buf: Bytes)
    ensures Find(Split(buf).carry) == None
    decreases |buf|
  {
    match Find(buf)
    case None =>
    case Some(c) => CarryHasNoEvent(buf[c.rest..]);
  }

  // ---------- lines ----------

  predicate IsBreak(b: byte) {
    b == LF || b == CR
  }

  predicate NoBreaks(line: Bytes) {
    forall i :: 0 <= i < |line| ==> !IsBreak(line[i])
  }

  /** The first line ending at or after `i`. */
  function BreakFrom(b: Bytes, i: nat): (r: nat)
    requires i <= |b|
    ensures i <= r <= |b|
    ensures forall k :: i <= k < r ==> !IsBreak(b[k])
    ensures r < |b| ==> IsBreak(b[r])
    decreases |b| - i
  {
    if i == |b| || IsBreak(b[i]) then i else BreakFrom(b, i + 1)
  }

  function BreakLength(b: Bytes, k: nat): nat
    requires k < |b|
  {
    if b[k] == CR && k + 1 < |b| && b[k + 1] == LF then 2 else 1
  }

  function Lines(b: Bytes): seq<Bytes>
    decreases |b|
  {
    var k := BreakFrom(b, 0);
    if k == |b| then if b == [] then [] else [b]
    else [b[..k]] + Lines(b[k + BreakLength(b, k)..])
  }

  lemma {:induction false} FirstBreak(b: Bytes, i: nat, k: nat)
    requires i <= k <= |b| && (forall j :: i <= j < k ==> !IsBreak(b[j])) && (k < |b| ==> IsBreak(b[k]))
    ensures BreakFrom(b, i) == k
    decreases k - i
  {
    if i < k {
      FirstBreak(b, i + 1, k);
    }
  }

  lemma {:induction false} LineAt(b: Bytes, k: nat)
    requires k < |b| && NoBreaks(b[..k]) && IsBreak(b[k])
    ensures Lines(b) == [b[..k]] + Lines(b[k + BreakLength(b, k)..])
  {
    assert forall j :: 0 <= j < k ==> b[j] == b[..k][j];
    FirstBreak(b, 0, k);
  }

  lemma {:induction false} LastLine(b: Bytes)
    requires NoBreaks(b)
    ensures Lines(b) == if b == [] then [] else [b]
  {
    FirstBreak(b, 0, |b|);
  }

  /** A CR that the next byte turns into a CRLF. */
  predicate PendingCr(b: Bytes, k: nat) {
    k + 1 < |b| && b[k] == CR && b[k + 1] == LF
  }

  /** The scan has consumed b[..begin] and passed b[begin..i] without ending a line. */
  ghost predicate Scanned(b: Bytes, begin: nat, i: nat, lines: seq<Bytes>) {
    && begin <= i <= |b|
    && (forall k :: begin <= k < i && IsBreak(b[k]) ==> k == i - 1 && PendingCr(b, k))
    && Lines(b) == lines + Lines(b[begin..])
  }

  lemma TailOf(b: Bytes, begin: nat, end: nat)
    requires begin <= end <= |b|
    ensures b[begin..][end - begin..] == b[end..]
  {
  }

  /** The line b[begin..end], ended by the break whose last byte is b[i]. */
  lemma {:induction false} LineEndsAt(b: Bytes, begin: nat, end: nat, i: nat)
    requires begin <= end <= i < |b| && NoBreaks(b[begin..end]) && IsBreak(b[end])
    requires BreakLength(b, end) == i + 1 - end
    ensures Lines(b[begin..]) == [b[begin..end]] + Lines(b[i + 1..])
  {
    HeadOf(b, begin, end);
    TailOf(b, begin, i + 1);
    BreakOf(b, begin, end);
    LineIn(b[begin..], end - begin, b[begin..end], b[i + 1..]);
  }

  lemma {:induction false} LineIn(s: Bytes, k: nat, line: Bytes, rest: Bytes)
    requires k < |s| && s[..k] == line && NoBreaks(line) && IsBreak(s[k])
    requires k + BreakLength(s, k) <= |s| && s[k + BreakLength(s, k)..] == rest
    ensures Lines(s) == [line] + Lines(rest)
  {
    LineAt(s, k);
  }

  lemma HeadOf(b: Bytes, begin: nat, end: nat)
    requires begin <= end <= |b|
    ensures b[begin..][..end - begin] == b[begin..end]
  {
  }

  lemma BreakOf(b: Bytes, begin: nat, end: nat)
    requires begin <= end < |b|
    ensures b[begin..][end - begin] == b[end] && BreakLength(b[begin..], end - begin) == BreakLength(b, end)
  {
  }

  lemma {:induction false} ScanLine(b: Bytes, begin: nat, i: nat, lines: seq<Bytes>, end: nat)
    requires Scanned(b, begin, i, lines) && i < |b|
    requires b[i] == LF || (b[i] == CR && !PendingCr(b, i))
    requires end == if b[i] == LF && i > begin && b[i - 1] == CR then i - 1 else i
    ensures Scanned(b, i + 1, i + 1, lines + [b[begin..end]])
  {
    assert forall k :: 0 <= k < end - begin ==> b[begin..end][k] == b[begin + k];
    LineEndsAt(b, begin, end, i);
    GlueSnoc(lines, b[begin..end], Lines(b[i + 1..]));
  }

  lemma {:induction false} ScanOn(b: Bytes, begin: nat, i: nat, lines: seq<Bytes>)
    requires Scanned(b, begin, i, lines) && i < |b|
    requires !IsBreak(b[i]) || PendingCr(b, i)
    ensures Scanned(b, begin, i + 1, lines)
  {
  }

  /** The line the byte at `i` ends, if it ends one; a CR just before an LF leaves that to the LF. */
  function EndedLine(b: Bytes, begin: nat, i: nat): Option<Bytes>
    requires begin <= i < |b|
  {
    if b[i] == LF then
      var line := b[begin..i];
      Some(if |line| > 0 && line[|line| - 1] == CR then line[..|line| - 1] else line)
    else if b[i] == CR && !PendingCr(b, i) then Some(b[begin..i])
    else None
  }

  lemma {:induction false} ScanStep(b: Bytes, begin: nat, i: nat, lines: seq<Bytes>)
    requires Scanned(b, begin, i, lines) && i < |b|
    ensures match EndedLine(b, begin, i)
            case Some(line) => Scanned(b, i + 1, i + 1, lines + [line])
            case None => Scanned(b, begin, i + 1, lines)
  {
    match EndedLine(b, begin, i)
    case Some(line) =>
      ScanLine(b, begin, i, lines, begin + |line|);
      assert line == b[begin..begin + |line|];
    case None => ScanOn(b, begin, i, lines);
  }

  method SplitLines(b: Bytes) returns (lines: seq<Bytes>)
    ensures lines == Lines(b)
  {
    lines := [];
    var begin := 0;
    assert b[0..] == b;
    for i := 0 to |b|
      invariant Scanned(b, begin, i, lines)
    {
      ScanStep(b, begin, i, lines);
      match EndedLine(b, begin, i)
      case Some(line) =>
        lines := lines + [line];
        begin := i + 1;
      case None =>
    }
    LastLine(b[begin..]);
    if begin < |b| {
      lines := lines + [b[begin..]];
    }
  }

  // ---------- one event ----------

  datatype Fields = Fields(kind: Bytes, parts: seq<Bytes>)

  function Unspaced(d: Bytes): Bytes {
    if d != [] && d[0] == SPACE then d[1..] else d
  }

  /** The last event: line, and every data: line. */
  function FieldsOf(lib: Lib, lines: seq<Bytes>): Fields {
    if lines == [] then Fields([], [])
    else
      var before, line := FieldsOf(lib, lines[..|lines| - 1]), lines[|lines| - 1];
      if EVENT <= line then before.(kind := lib.trim(line[|EVENT|..]))
      else if DATA <= line then before.(parts := before.parts + [Unspaced(line[|DATA|..])])
      else before
  }

  function Join(parts: seq<Bytes>): Bytes {
    if parts == [] then []
    else if |parts| == 1 then parts[0]
    else Join(parts[..|parts| - 1]) + [LF] + parts[|parts| - 1]
  }

  /** The frame of an event block; None for a block without data and for the [DONE] sentinel. */
  function Parse(lib: Lib, raw: Bytes): Option<Frame> {
    if lib.trim(raw) == [] then None else FrameOf(lib, FieldsOf(lib, Lines(raw)))
  }

  function FrameOf(lib: Lib, f: Fields): Option<Frame> {
    if f.parts == [] || Join(f.parts) == DONE then None
    else Some(Frame(if f.kind == [] then lib.sniff(Join(f.parts)) else f.kind, Join(f.parts)))
  }

  method ParseEvent(lib: Lib, raw: Bytes) returns (frame: Option<Frame>)
    ensures frame == Parse(lib, raw)
  {
    if lib.trim(raw) == [] {
      return None;
    }
    var lines := SplitLines(raw);
    var kind: Bytes, parts: seq<Bytes> := [], [];
    for i := 0 to |lines|
      invariant FieldsOf(lib, lines[..i]) == Fields(kind, parts)
    {
      var line := lines[i];
      assert lines[..i + 1][..i] == lines[..i];
      if EVENT <= line {
        kind := lib.trim(line[|EVENT|..]);
      } else if DATA <= line {
        parts := parts + [Unspaced(line[|DATA|..])];
      }
    }
    assert lines[..|lines|] == lines;
    if |parts| == 0 {
      return None;
    }
    var data := Join(parts);
    if data == DONE {
      return None;
    }
    if kind == [] {
      kind := lib.sniff(data);
    }
    return Some(Frame(kind, data));
  }

  // ---------- the parser ----------

  function FramesOf(lib: Lib, events: seq<Bytes>): seq<Frame> {
    if events == [] then []
    else
      var last := Parse(lib, events[|events| - 1]);
      FramesOf(lib, events[..|events| - 1]) + if last.Some? then [last.value] else []
  }

  lemma {:induction false} FramesAppend(lib: Lib, a: seq<Bytes>, b: seq<Bytes>)
    ensures FramesOf(lib, a + b) == FramesOf(lib, a) + FramesOf(lib, b)
    decreases |b|
  {
    if b == [] {
      assert a + b == a;
    } else {
      var init, last := b[..|b| - 1], b[|b| - 1];
      FramesAppend(lib, a, init);
      FramesSnoc(lib, b, init, last);
      FramesSnoc(lib, a + b, a + init, last);
    }
  }

  lemma {:induction false} FramesSnoc(lib: Lib, events: seq<Bytes>, init: seq<Bytes>, last: Bytes)
    requires events == init + [last]
    ensures FramesOf(lib, events)
         == FramesOf(lib, init) + if Parse(lib, last).Some? then [Parse(lib, last).value] else []
  {
    assert events[..|events| - 1] == init;
  }

  predicate Stops(frames: seq<Frame>) {
    exists f :: f in frames && f.kind == MESSAGE_STOP
  }

  /** The carry and the verdict so far. */
  datatype State = State(buf: Bytes, sawMessageStop: bool)

  function Fed(lib: Lib, s: State, chunk: Bytes): (State, seq<Frame>) {
    var cuts := Split(s.buf + chunk);
    var frames := FramesOf(lib, cuts.events);
    (State(cuts.carry, s.sawMessageStop || Stops(frames)), frames)
  }

  /** What is left in the carry counts as one last event unless it is blank. */
  function Finished(lib: Lib, s: State): (seq<Frame>, bool) {
    var last := if lib.trim(s.buf) == [] then None else Parse(lib, s.buf);
    var frames := if last.Some? then [last.value] else [];
    (frames, s.sawMessageStop || Stops(frames))
  }

  class SSEParser {
    const lib: Lib
    var buf: Bytes
    var sawMessageStop: bool

    function Value(): State
      reads this
    {
      State(buf, sawMessageStop)
    }

    /** The carry never holds a complete event. */
    ghost predicate Valid()
      reads this
    {
      Find(buf) == None
    }

    constructor (lib: Lib)
      ensures this.lib == lib && Value() == State([], false) && Valid()
    {
      this.lib, buf, sawMessageStop := lib, [], false;
    }

    method Feed(chunk: Bytes) returns (frames: seq<Frame>)
      modifies this
      ensures Valid() && (Value(), frames) == Fed(lib, old(Value()), chunk)
    {
      buf := buf + chunk;
      ghost var whole := buf;
      ghost var events := [];
      ghost var before := sawMessageStop;
      frames := [];
      while true
        invariant Split(whole).events == events + Split(buf).events && Split(whole).carry == Split(buf).carry
        invariant frames == FramesOf(lib, events)
        invariant sawMessageStop == (before || Stops(frames))
        decreases |buf|
      {
        var event, rest, found := FindEvent(buf);
        if !found {
          SplitNone(buf);
          assert Split(whole).events == events;
          return;
        }
        SplitSome(buf, Find(buf).value);
        GlueSnoc(events, event, Split(rest).events);
        buf := rest;
        FramesSnoc(lib, events + [event], events, event);
        events := events + [event];
        var f := ParseEvent(lib, event);
        if f.Some? {
          StopsSnoc(frames, f.value);
          Track(f.value);
          frames := frames + [f.value];
        }
      }
    }

    method Track(f: Frame)
      modifies this`sawMessageStop
      ensures sawMessageStop == (old(sawMessageStop) || f.kind == MESSAGE_STOP)
    {
      if f.kind == MESSAGE_STOP {
        sawMessageStop := true;
      }
    }

    method Finish() returns (frames: seq<Frame>, complete: bool)
      modifies this
      ensures (frames, complete) == Finished(lib, old(Value()))
      ensures Value() == State([], complete)
    {
      frames := [];
      if lib.trim(buf) != [] {
        var f := ParseEvent(lib, buf);
        if f.Some? {
          StopsSnoc([], f.value);
          Track(f.value);
          frames := [f.value];
        }
      }
      buf := [];
      complete := sawMessageStop;
    }
  }

  lemma StopsSnoc(frames: seq<Frame>, f: Frame)
    ensures Stops(frames + [f]) <==> Stops(frames) || f.kind == MESSAGE_STOP
    ensures [] + [f] == [f]
  {
    assert f in frames + [f];
  }

  // ---------- chunk independence ----------

  function Concat(chunks: seq<Bytes>): Bytes {
    if chunks == [] then [] else Concat(chunks[..|chunks| - 1]) + chunks[|chunks| - 1]
  }

  function FedAll(lib: Lib, s: State, chunks: seq<Bytes>): (State, seq<Frame>) {
    if chunks == [] then (s, [])
    else
      var before := FedAll(lib, s, chunks[..|chunks| - 1]);
      var last := Fed(lib, before.0, chunks[|chunks| - 1]);
      (last.0, before.1 + last.1)
  }

  lemma StopsAppend(a: seq<Frame>, b: seq<Frame>)
    ensures Stops(a + b) <==> Stops(a) || Stops(b)
  {
    assert forall f :: f in a + b <==> f in a || f in b;
  }

  /** Two chunks are one. */
  lemma FedTwice(lib: Lib, s: State, a: Bytes, b: Bytes)
    ensures var first := Fed(lib, s, a);
            var second := Fed(lib, first.0, b);
            Fed(lib, s, a + b) == (second.0, first.1 + second.1)
  {
    var first := Split(s.buf + a);
    var second := Split(first.carry + b);
    assert s.buf + (a + b) == (s.buf + a) + b;
    SplitAppend(s.buf + a, b);
    FramesAppend(lib, first.events, second.events);
    StopsAppend(FramesOf(lib, first.events), FramesOf(lib, second.events));
  }

  /** Any chunking at all gives the frames, the carry and the verdict of the undivided stream. */
  lemma {:induction false} ChunkIndependence(lib: Lib, s: State, chunks: seq<Bytes>)
    requires Find(s.buf) == None
    ensures FedAll(lib, s, chunks) == Fed(lib, s, Concat(chunks))
    decreases |chunks|
  {
    if chunks == [] {
      assert s.buf + [] == s.buf;
      SplitNone(s.buf);
    } else {
      ChunkIndependence(lib, s, chunks[..|chunks| - 1]);
      FedTwice(lib, s, Concat(chunks[..|chunks| - 1]), chunks[|chunks| - 1]);
    }
  }

  /** A whole stream's frames and verdict, fed undivided. */
  function Parsed(lib: Lib, stream: Bytes): (seq<Frame>, bool) {
    var fed := Fed(lib, State([], false), stream);
    var end := Finished(lib, fed.0);
    (fed.1 + end.0, end.1)
  }

  method ParseStream(lib: Lib, chunks: seq<Bytes>) returns (frames: seq<Frame>, complete: bool)
    ensures (frames, complete) == Parsed(lib, Concat(chunks))
  {
    var p := new SSEParser(lib);
    ghost var start := p.Value();
    frames := [];
    for i := 0 to |chunks|
      invariant fresh(p) && p.lib == lib
      invariant (p.Value(), frames) == FedAll(lib, start, chunks[..i])
    {
      assert chunks[..i + 1][..i] == chunks[..i];
      var more := p.Feed(chunks[i]);
      frames := frames + more;
    }
    assert chunks[..|chunks|] == chunks;
    ChunkIndependence(lib, start, chunks);
    var tail;
    tail, complete := p.Finish();
    frames := frames + tail;
  }

  lemma VerdictIsStop(lib: Lib, stream: Bytes)
    ensures Parsed(lib, stream).1 <==> Stops(Parsed(lib, stream).0)
  {
    var fed := Fed(lib, State([], false), stream);
    StopsAppend(fed.1, Finished(lib, fed.0).0);
  }
}
