/** Tailing an append-only transcript, and one representative line per request (internal/jsonlogs). */
module Tailer {
  import opened Prelude

  const LF: byte := 10

  // ---------- complete lines ----------

  predicate AtBoundary(b: Bytes, k: int) {
    0 <= k <= |b| && (k == 0 || b[k - 1] == LF)
  }

  function FirstLf(b: Bytes, i: nat): (r: nat)
    requires i <= |b|
    ensures i <= r <= |b|
    ensures r < |b| ==> b[r] == LF
    ensures forall k :: i <= k < r ==> b[k] != LF
    decreases |b| - i
  {
    if i == |b| || b[i] == LF then i else FirstLf(b, i + 1)
  }

  /** The newline-terminated lines; a trailing partial one is not among them. */
  function LinesIn(b: Bytes): seq<Bytes>
    decreases |b|
  {
    var k := FirstLf(b, 0);
    if k == |b| then [] else [b[..k]] + LinesIn(b[k + 1..])
  }

  /** How many bytes the complete lines take. */
  function CompleteLength(b: Bytes): (n: nat)
    ensures n <= |b| && AtBoundary(b, n)
    decreases |b|
  {
    var k := FirstLf(b, 0);
    if k == |b| then 0
    else
      var n := CompleteLength(b[k + 1..]);
      assert n > 0 ==> b[k + 1..][n - 1] == b[k + n];
      k + 1 + n
  }

  function Unlines(ls: seq<Bytes>): Bytes {
    if ls == [] then [] else ls[0] + [LF] + Unlines(ls[1..])
  }

  /** Each line with its break makes up the bytes up to the last break, and no line has a break in it. */
  lemma {:induction false} LinesExactly(b: Bytes)
    ensures Unlines(LinesIn(b)) == b[..CompleteLength(b)]
    ensures forall l :: l in LinesIn(b) ==> LF !in l
    decreases |b|
  {
    var k := FirstLf(b, 0);
    if k < |b| {
      LinesExactly(b[k + 1..]);
      LinesCons(b, k);
    }
  }

  lemma {:induction false} LinesCons(b: Bytes, k: nat)
    requires k < |b| && FirstLf(b, 0) == k
    requires Unlines(LinesIn(b[k + 1..])) == b[k + 1..][..CompleteLength(b[k + 1..])]
    requires forall l :: l in LinesIn(b[k + 1..]) ==> LF !in l
    ensures Unlines(LinesIn(b)) == b[..CompleteLength(b)]
    ensures forall l :: l in LinesIn(b) ==> LF !in l
  {
    var rest := LinesIn(b[k + 1..]);
    assert ([b[..k]] + rest)[1..] == rest;
    Rejoined(b, k, CompleteLength(b[k + 1..]));
  }

  lemma Rejoined(b: Bytes, k: nat, n: nat)
    requires k < |b| && b[k] == LF && k + 1 + n <= |b|
    ensures b[..k] + [LF] + b[k + 1..][..n] == b[..k + 1 + n]
  {
  }

  lemma {:induction false} NoneAfterComplete(b: Bytes, k: nat)
    requires CompleteLength(b) <= k < |b|
    ensures b[k] != LF
    decreases |b|
  {
    var f := FirstLf(b, 0);
    if f < |b| {
      NoneAfterComplete(b[f + 1..], k - f - 1);
    }
  }

  lemma {:induction false} FirstIs(b: Bytes, i: nat, k: nat)
    requires i <= k <= |b| && (k < |b| ==> b[k] == LF) && forall j :: i <= j < k ==> b[j] != LF
    ensures FirstLf(b, i) == k
    decreases k - i
  {
    if i < k {
      FirstIs(b, i + 1, k);
    }
  }

  lemma {:induction false} LinesFirst(b: Bytes, f: nat)
    requires f < |b| && b[f] == LF && forall j :: 0 <= j < f ==> b[j] != LF
    ensures LinesIn(b) == [b[..f]] + LinesIn(b[f + 1..])
    ensures CompleteLength(b) == f + 1 + CompleteLength(b[f + 1..])
  {
    FirstIs(b, 0, f);
  }

  lemma Slices(b: Bytes, f: nat, k: nat)
    requires f < k <= |b|
    ensures b[..k][..f] == b[..f] && b[..k][f + 1..] == b[f + 1..][..k - f - 1]
    ensures b[f + 1..][k - f - 1..] == b[k..]
    ensures AtBoundary(b, k) ==> AtBoundary(b[f + 1..], k - f - 1)
  {
  }

  /** Lines and lengths add up across a line boundary. */
  lemma {:induction false} LinesSplit(b: Bytes, k: nat)
    requires AtBoundary(b, k)
    ensures LinesIn(b) == LinesIn(b[..k]) + LinesIn(b[k..])
    ensures CompleteLength(b) == k + CompleteLength(b[k..]) && CompleteLength(b[..k]) == k
    decreases |b|, 1
  {
    if k == 0 {
      assert b[..0] == [] && b[0..] == b;
    } else {
      var f := FirstLf(b, 0);
      assert f < k;
      LinesSplitStep(b, f, k);
    }
  }

  lemma {:induction false} LinesSplitStep(b: Bytes, f: nat, k: nat)
    requires AtBoundary(b, k) && f < k && b[f] == LF && forall j :: 0 <= j < f ==> b[j] != LF
    ensures LinesIn(b) == LinesIn(b[..k]) + LinesIn(b[k..])
    ensures CompleteLength(b) == k + CompleteLength(b[k..]) && CompleteLength(b[..k]) == k
    decreases |b|, 0
  {
    Slices(b, f, k);
    LinesSplit(b[f + 1..], k - f - 1);
    StepLines(b, f, k);
    StepLengths(b, f, k);
  }

  lemma {:induction false} StepLines(b: Bytes, f: nat, k: nat)
    requires f < k <= |b| && b[f] == LF && forall j :: 0 <= j < f ==> b[j] != LF
    requires LinesIn(b[f + 1..]) == LinesIn(b[f + 1..][..k - f - 1]) + LinesIn(b[f + 1..][k - f - 1..])
    ensures LinesIn(b) == LinesIn(b[..k]) + LinesIn(b[k..])
  {
    var rest := b[f + 1..];
    Slices(b, f, k);
    LinesFirst(b, f);
    LinesFirstOfPrefix(b, f, k);
    Reassembled(b[..f], LinesIn(b), LinesIn(b[..k]), LinesIn(rest), LinesIn(rest[..k - f - 1]), LinesIn(b[k..]));
  }

  lemma {:induction false} StepLengths(b: Bytes, f: nat, k: nat)
    requires f < k <= |b| && b[f] == LF && forall j :: 0 <= j < f ==> b[j] != LF
    requires CompleteLength(b[f + 1..]) == k - f - 1 + CompleteLength(b[f + 1..][k - f - 1..])
    requires CompleteLength(b[f + 1..][..k - f - 1]) == k - f - 1
    ensures CompleteLength(b) == k + CompleteLength(b[k..]) && CompleteLength(b[..k]) == k
  {
    Slices(b, f, k);
    LinesFirst(b, f);
    LinesFirstOfPrefix(b, f, k);
  }

  lemma {:induction false} LinesFirstOfPrefix(b: Bytes, f: nat, k: nat)
    requires f < k <= |b| && b[f] == LF && forall j :: 0 <= j < f ==> b[j] != LF
    ensures LinesIn(b[..k]) == [b[..f]] + LinesIn(b[f + 1..][..k - f - 1])
    ensures CompleteLength(b[..k]) == f + 1 + CompleteLength(b[f + 1..][..k - f - 1])
  {
    Slices(b, f, k);
    LinesFirst(b[..k], f);
  }

  lemma Reassembled(line: Bytes, whole: seq<Bytes>, front: seq<Bytes>, all: seq<Bytes>, before: seq<Bytes>, after: seq<Bytes>)
    requires whole == [line] + all && front == [line] + before && all == before + after
    ensures whole == front + after
  {
  }

  /** Past the last line break there are no lines. */
  lemma {:induction false} CompletePart(b: Bytes)
    ensures LinesIn(b[..CompleteLength(b)]) == LinesIn(b)
  {
    var n := CompleteLength(b);
    LinesSplit(b, n);
    assert CompleteLength(b[n..]) == 0;
    assert LinesIn(b[n..]) == [];
    assert LinesIn(b[..n]) + [] == LinesIn(b[..n]);
  }

  method SplitCompleteLines(raw: Bytes) returns (consumed: nat, lines: seq<Bytes>)
    ensures consumed == CompleteLength(raw) && lines == LinesIn(raw)
  {
    var begin := 0;
    lines := [];
    assert raw[..0] == [];
    for i := 0 to |raw|
      invariant begin <= i && AtBoundary(raw, begin)
      invariant forall k :: begin <= k < i ==> raw[k] != LF
      invariant lines == LinesIn(raw[..begin])
    {
      if raw[i] == LF {
        LineEnds(raw, begin, i);
        lines := lines + [raw[begin..i]];
        begin := i + 1;
      }
    }
    NoMoreLines(raw, begin);
    consumed := begin;
  }

  lemma {:induction false} LineEnds(raw: Bytes, begin: nat, i: nat)
    requires begin <= i < |raw| && AtBoundary(raw, begin) && raw[i] == LF
    requires forall k :: begin <= k < i ==> raw[k] != LF
    ensures LinesIn(raw[..i + 1]) == LinesIn(raw[..begin]) + [raw[begin..i]]
  {
    var b := raw[..i + 1];
    LineCut(raw, begin, i);
    LinesSplit(b, begin);
    OneLine(b[begin..], raw[begin..i]);
  }

  lemma LineCut(raw: Bytes, begin: nat, i: nat)
    requires begin <= i < |raw| && AtBoundary(raw, begin) && raw[i] == LF
    ensures var b := raw[..i + 1];
            b[..begin] == raw[..begin] && b[begin..] == raw[begin..i] + [LF] && AtBoundary(b, begin)
  {
  }

  lemma {:induction false} OneLine(b: Bytes, line: Bytes)
    requires b == line + [LF] && forall k :: 0 <= k < |line| ==> line[k] != LF
    ensures LinesIn(b) == [line]
  {
    FirstIs(b, 0, |line|);
    assert b[..|line|] == line && b[|line| + 1..] == [];
    assert LinesIn([]) == [];
  }

  lemma {:induction false} NoMoreLines(raw: Bytes, begin: nat)
    requires AtBoundary(raw, begin) && forall k :: begin <= k < |raw| ==> raw[k] != LF
    ensures CompleteLength(raw) == begin && LinesIn(raw[..begin]) == LinesIn(raw)
  {
    LinesSplit(raw, begin);
    FirstIs(raw[begin..], 0, |raw| - begin);
    CompletePart(raw);
  }

  // ---------- polls ----------

  /**
   What one poll meets: whether the stored cursor loads, whether the file can be opened, sized and read, its
   size when asked, its bytes when read, and whether the new cursor is saved.
   */
  datatype Glimpse = Glimpse(loaded: bool, readable: bool, size: nat, content: Bytes, saved: bool)

  /** The bytes a poll handed over as lines. */
  datatype Span = Span(from: nat, to: nat)

  datatype Polled = Polled(cursor: nat, span: Option<Span>, lines: seq<Bytes>)

  /** The offset read from: the cursor, or the start when it does not load or the file has shrunk. */
  function Offset(cursor: nat, g: Glimpse): nat {
    var offset := if g.loaded then cursor else 0;
    if g.size < offset then 0 else offset
  }

  function Rest(b: Bytes, offset: nat): Bytes {
    if offset <= |b| then b[offset..] else []
  }

  function Poll(cursor: nat, g: Glimpse): Polled {
    if !g.readable then Polled(cursor, None, [])
    else
      var offset := Offset(cursor, g);
      var raw := Rest(g.content, offset);
      var next := offset + CompleteLength(raw);
      Polled(if g.saved then next else cursor, Some(Span(offset, next)), LinesIn(raw))
  }

  /** A file shorter than its cursor, or one whose cursor does not load, is read from the start. */
  lemma StartsOver(cursor: nat, g: Glimpse)
    requires g.readable && (!g.loaded || g.size < cursor)
    ensures Poll(cursor, g).lines == LinesIn(g.content) && Poll(cursor, g).span == Some(Span(0, CompleteLength(g.content)))
    ensures g.saved ==> Poll(cursor, g).cursor == CompleteLength(g.content)
  {
    assert Rest(g.content, 0) == g.content;
  }

  datatype Tailed = Tailed(cursor: nat, spans: seq<Span>, lines: seq<Bytes>)

  function Polls(gs: seq<Glimpse>): Tailed {
    if gs == [] then Tailed(0, [], [])
    else
      var before := Polls(gs[..|gs| - 1]);
      var p := Poll(before.cursor, gs[|gs| - 1]);
      Tailed(p.cursor, if p.span.Some? then before.spans + [p.span.value] else before.spans, before.lines + p.lines)
  }

  /** The file only grows from poll to poll, and between a poll's asking its size and reading it. */
  predicate AppendOnly(gs: seq<Glimpse>) {
    && (forall i :: 0 <= i < |gs| ==> gs[i].size <= |gs[i].content|)
    && (forall i, j :: 0 <= i < j < |gs| ==> gs[i].content <= gs[j].content && |gs[i].content| <= gs[j].size)
  }

  predicate NoFailures(gs: seq<Glimpse>) {
    forall i :: 0 <= i < |gs| ==> gs[i].loaded && gs[i].readable && gs[i].saved
  }

  function Content(gs: seq<Glimpse>): Bytes {
    if gs == [] then [] else gs[|gs| - 1].content
  }

  lemma InitGrows(gs: seq<Glimpse>)
    requires AppendOnly(gs) && gs != []
    ensures AppendOnly(gs[..|gs| - 1]) && Content(gs[..|gs| - 1]) <= Content(gs)
    ensures |Content(gs[..|gs| - 1])| <= gs[|gs| - 1].size
  {
    var n := |gs| - 1;
    if n > 0 {
      assert gs[..n][n - 1] == gs[n - 1];
    }
  }

  lemma BoundaryStays(a: Bytes, b: Bytes, k: int)
    requires a <= b && AtBoundary(a, k)
    ensures AtBoundary(b, k) && b[..k] == a[..k]
  {
  }

  /** Without failures, the lines handed over so far are exactly the file's complete lines, each once, in order. */
  lemma {:induction false} TailsExactly(gs: seq<Glimpse>)
    requires AppendOnly(gs) && NoFailures(gs)
    ensures Polls(gs).lines == LinesIn(Content(gs)) && Polls(gs).cursor == CompleteLength(Content(gs))
    decreases |gs|
  {
    if gs != [] {
      var init, g := gs[..|gs| - 1], gs[|gs| - 1];
      InitGrows(gs);
      TailsExactly(init);
      var was, now, c := Content(init), g.content, CompleteLength(Content(init));
      BoundaryStays(was, now, c);
      LinesSplit(now, c);
      CompletePart(was);
      assert Offset(c, g) == c && Rest(now, c) == now[c..];
    }
  }

  /** How far any poll has handed lines over. */
  function Reach(spans: seq<Span>): nat {
    if spans == [] then 0
    else
      var before, s := Reach(spans[..|spans| - 1]), spans[|spans| - 1];
      if s.to > before then s.to else before
  }

  ghost predicate TailInv(t: Tailed, content: Bytes) {
    && AtBoundary(content, t.cursor) && AtBoundary(content, Reach(t.spans)) && t.cursor <= Reach(t.spans)
  }

  /** A complete line of `b`, break included, at [from, to). */
  predicate IsLine(b: Bytes, from: nat, to: nat) {
    from < to <= |b| && AtBoundary(b, from) && b[to - 1] == LF && forall k :: from <= k < to - 1 ==> b[k] != LF
  }

  predicate Handed(spans: seq<Span>, from: nat, to: nat) {
    exists i :: 0 <= i < |spans| && spans[i].from <= from && to <= spans[i].to
  }

  /** What one poll adds: from no later than the cursor to the last complete line there is. */
  lemma {:induction false} PollSpan(cursor: nat, g: Glimpse, was: Bytes)
    requires was <= g.content && |was| <= g.size <= |g.content| && AtBoundary(was, cursor) && g.readable
    ensures var p := Poll(cursor, g);
            && p.span.value.from <= cursor && p.span.value.to == CompleteLength(g.content)
            && AtBoundary(g.content, p.span.value.from) && AtBoundary(g.content, p.cursor)
            && (p.cursor == cursor || p.cursor == p.span.value.to)
  {
    BoundaryStays(was, g.content, cursor);
    var offset := Offset(cursor, g);
    assert offset == cursor || offset == 0;
    assert Rest(g.content, offset) == g.content[offset..];
    LinesSplit(g.content, offset);
  }

  lemma {:induction false} BoundaryBelow(b: Bytes, k: int)
    requires AtBoundary(b, k)
    ensures k <= CompleteLength(b)
  {
    if k > CompleteLength(b) {
      NoneAfterComplete(b, k - 1);
    }
  }

  lemma {:induction false} TailKeeps(gs: seq<Glimpse>)
    requires AppendOnly(gs)
    ensures TailInv(Polls(gs), Content(gs))
    ensures gs != [] && gs[|gs| - 1].readable ==> Reach(Polls(gs).spans) == CompleteLength(Content(gs))
    decreases |gs|
  {
    if gs != [] {
      var init, g := gs[..|gs| - 1], gs[|gs| - 1];
      InitGrows(gs);
      TailKeeps(init);
      var t := Polls(init);
      BoundaryStays(Content(init), g.content, t.cursor);
      BoundaryStays(Content(init), g.content, Reach(t.spans));
      if g.readable {
        PollSpan(t.cursor, g, Content(init));
        BoundaryBelow(g.content, Reach(t.spans));
        ReachNext(t.spans, Poll(t.cursor, g).span.value);
      }
    }
  }

  lemma ReachNext(spans: seq<Span>, s: Span)
    ensures Reach(spans + [s]) == if s.to > Reach(spans) then s.to else Reach(spans)
  {
    assert (spans + [s])[..|spans|] == spans;
  }

  lemma HandedStays(spans: seq<Span>, s: Span, from: nat, to: nat)
    requires Handed(spans, from, to) || (s.from <= from && to <= s.to)
    ensures Handed(spans + [s], from, to)
  {
    if Handed(spans, from, to) {
      var i :| 0 <= i < |spans| && spans[i].from <= from && to <= spans[i].to;
      assert (spans + [s])[i] == spans[i];
    } else {
      assert (spans + [s])[|spans|] == s;
    }
  }

  /**
   Whatever cursor loads, reads and saves fail along the way, every complete line up to the furthest point any
   poll reached was handed over: a failure repeats lines, it never skips one.
   */
  lemma {:induction false} NeverSkips(gs: seq<Glimpse>, from: nat, to: nat)
    requires AppendOnly(gs) && IsLine(Content(gs), from, to) && to <= Reach(Polls(gs).spans)
    ensures Handed(Polls(gs).spans, from, to)
    decreases |gs|
  {
    if gs != [] {
      var init, g := gs[..|gs| - 1], gs[|gs| - 1];
      InitGrows(gs);
      TailKeeps(init);
      var t, was := Polls(init), Content(init);
      var reach := Reach(t.spans);
      if to <= reach {
        LineBefore(was, g.content, from, to, reach);
        NeverSkips(init, from, to);
        if g.readable {
          HandedStays(t.spans, Poll(t.cursor, g).span.value, from, to);
        }
      } else {
        PollSpan(t.cursor, g, was);
        ReachNext(t.spans, Poll(t.cursor, g).span.value);
        BoundaryStays(was, g.content, reach);
        BoundaryOutside(g.content, from, to, reach);
        HandedStays(t.spans, Poll(t.cursor, g).span.value, from, to);
      }
    }
  }

  lemma LineBefore(was: Bytes, now: Bytes, from: nat, to: nat, reach: nat)
    requires was <= now && IsLine(now, from, to) && to <= reach <= |was|
    ensures IsLine(was, from, to)
  {
  }

  /** No boundary lies inside a line. */
  lemma BoundaryOutside(b: Bytes, from: nat, to: nat, k: nat)
    requires IsLine(b, from, to) && AtBoundary(b, k) && k < to
    ensures k <= from
  {
  }

  /** After any poll that could read the file, every complete line it has was handed over. */
  lemma {:induction false} NothingPending(gs: seq<Glimpse>, from: nat, to: nat)
    requires AppendOnly(gs) && gs != [] && gs[|gs| - 1].readable && IsLine(Content(gs), from, to)
    ensures Handed(Polls(gs).spans, from, to)
  {
    TailKeeps(gs);
    BoundaryBelow(Content(gs), to);
    NeverSkips(gs, from, to);
  }

  /** The last poll that could read the file saved its cursor. */
  predicate LastSaved(gs: seq<Glimpse>) {
    gs == [] || (if gs[|gs| - 1].readable then gs[|gs| - 1].saved else LastSaved(gs[..|gs| - 1]))
  }

  lemma {:induction false} SavedCursor(gs: seq<Glimpse>)
    requires AppendOnly(gs) && LastSaved(gs)
    ensures Polls(gs).cursor == Reach(Polls(gs).spans)
    decreases |gs|
  {
    if gs != [] {
      var init, g := gs[..|gs| - 1], gs[|gs| - 1];
      InitGrows(gs);
      TailKeeps(gs);
      TailKeeps(init);
      if g.readable {
        PollSpan(Polls(init).cursor, g, Content(init));
      } else {
        SavedCursor(init);
      }
    }
  }

  /** A poll starts over lines already handed over only when its cursor does not load or the last save failed. */
  lemma {:induction false} RepeatsOnlyAfterFailure(gs: seq<Glimpse>, g: Glimpse)
    requires AppendOnly(gs) && LastSaved(gs)
    requires g.readable && g.loaded && |Content(gs)| <= g.size
    ensures Poll(Polls(gs).cursor, g).span.value.from == Reach(Polls(gs).spans)
  {
    SavedCursor(gs);
    TailKeeps(gs);
  }

  // ---------- one representative per request ----------

  datatype Message = Message(id: string, hasUsage: bool, content: Bytes)

  datatype Line = Line(kind: string, uuid: string, sessionId: string, requestId: string, message: Option<Message>)

  /** The key a request is stored under: its header id, else the message's own id, else the line's place. */
  function RequestKey(l: Line): string {
    if l.requestId != "" then l.requestId
    else if l.message.Some? && l.message.value.id != "" then l.message.value.id
    else "jsonl:" + l.sessionId + ":" + l.uuid
  }

  predicate IsAssistantUsage(l: Line) {
    l.kind == "assistant" && l.message.Some? && l.message.value.hasUsage
  }

  predicate Speaks(l: Line, key: string) {
    IsAssistantUsage(l) && RequestKey(l) == key
  }

  /** The keys of the lines that carry usage, in first-seen order. */
  function Keys(ls: seq<Line>): seq<string> {
    if ls == [] then []
    else
      var before, l := Keys(ls[..|ls| - 1]), ls[|ls| - 1];
      if IsAssistantUsage(l) && RequestKey(l) !in before then before + [RequestKey(l)] else before
  }

  /** The last line with this key; the newest is the one whose counts are kept. */
  function LastOf(ls: seq<Line>, key: string): (r: int)
    ensures -1 <= r < |ls|
    ensures r >= 0 ==> Speaks(ls[r], key)
    ensures forall k :: r < k < |ls| ==> !Speaks(ls[k], key)
  {
    if ls == [] then -1
    else if Speaks(ls[|ls| - 1], key) then |ls| - 1
    else LastOf(ls[..|ls| - 1], key)
  }

  lemma {:induction false} KeysSpeak(ls: seq<Line>, key: string)
    ensures key in Keys(ls) <==> LastOf(ls, key) >= 0
  {
    if ls != [] {
      KeysSpeak(ls[..|ls| - 1], key);
    }
  }

  function Representatives(ls: seq<Line>): seq<Line> {
    var keys := Keys(ls);
    seq(|keys|, i requires 0 <= i < |keys| => if LastOf(ls, keys[i]) >= 0 then ls[LastOf(ls, keys[i])] else ls[0])
  }

  /** Exactly one line per key that any usage line has: that key's last, and no key twice. */
  lemma {:induction false} OnePerKey(ls: seq<Line>)
    ensures forall l :: l in ls && IsAssistantUsage(l) ==> RequestKey(l) in Keys(ls)
    ensures forall i :: 0 <= i < |Keys(ls)| ==>
              var r := LastOf(ls, Keys(ls)[i]); 0 <= r && Representatives(ls)[i] == ls[r] && Speaks(ls[r], Keys(ls)[i])
    ensures forall i, j :: 0 <= i < j < |Keys(ls)| ==> Keys(ls)[i] != Keys(ls)[j]
  {
    forall l | l in ls && IsAssistantUsage(l)
      ensures RequestKey(l) in Keys(ls)
    {
      var k :| 0 <= k < |ls| && ls[k] == l;
      assert Speaks(ls[k], RequestKey(l));
      KeysSpeak(ls, RequestKey(l));
    }
    forall i | 0 <= i < |Keys(ls)|
      ensures LastOf(ls, Keys(ls)[i]) >= 0
    {
      KeysSpeak(ls, Keys(ls)[i]);
    }
    KeysDiffer(ls);
  }

  lemma {:induction false} KeysDiffer(ls: seq<Line>)
    ensures forall i, j :: 0 <= i < j < |Keys(ls)| ==> Keys(ls)[i] != Keys(ls)[j]
  {
    if ls != [] {
      KeysDiffer(ls[..|ls| - 1]);
    }
  }

  /** More lines never reorder the keys already seen: each is listed where it first appeared. */
  lemma {:induction false} KeysOnlyExtend(ls: seq<Line>, more: seq<Line>)
    ensures Keys(ls) <= Keys(ls + more)
    decreases |more|
  {
    if more == [] {
      assert ls + more == ls;
    } else {
      KeysOnlyExtend(ls, more[..|more| - 1]);
      assert (ls + more)[..|ls + more| - 1] == ls + more[..|more| - 1];
    }
  }

  ghost predicate Grouped(ls: seq<Line>, order: seq<string>, byKey: map<string, Line>) {
    && order == Keys(ls)
    && (forall k :: k in byKey <==> k in order)
    && (forall k :: k in byKey ==> LastOf(ls, k) >= 0 && byKey[k] == ls[LastOf(ls, k)])
  }

  lemma {:induction false} GroupedNext(ls: seq<Line>, l: Line, order: seq<string>, byKey: map<string, Line>)
    requires Grouped(ls, order, byKey)
    ensures var key := RequestKey(l);
            if !IsAssistantUsage(l) then Grouped(ls + [l], order, byKey)
            else Grouped(ls + [l], if key in byKey then order else order + [key], byKey[key := l])
  {
    var next := ls + [l];
    assert next[..|ls|] == ls && next[|ls|] == l;
    forall k: string
      ensures LastOf(next, k) == if Speaks(l, k) then |ls| else LastOf(ls, k)
    {
    }
  }

  predicate HasMessageId(l: Line) {
    l.message.Some? && l.message.value.id != ""
  }

  /** What a line's request is known by: its request id; without one its message's id; without that its place. */
  predicate Bears(l: Line, name: string) {
    || (l.requestId != "" && name == l.requestId)
    || (l.requestId == "" && HasMessageId(l) && name == l.message.value.id)
    || (l.requestId == "" && !HasMessageId(l) && name == "jsonl:" + l.sessionId + ":" + l.uuid)
  }

  /** The `i`-th line is the last with usage that bears this name. */
  predicate LastBearing(ls: seq<Line>, name: string, i: nat) {
    && i < |ls| && IsAssistantUsage(ls[i]) && Bears(ls[i], name)
    && forall j :: i < j < |ls| && IsAssistantUsage(ls[j]) ==> !Bears(ls[j], name)
  }

  ghost predicate KeptFor(ls: seq<Line>, kept: Line, name: string) {
    exists i: nat :: LastBearing(ls, name, i) && kept == ls[i]
  }

  /** Of the lines with usage, one for each name they bear and for no other, and that one the last that bears it. */
  ghost predicate LastOfEachName(ls: seq<Line>, out: seq<Line>) {
    && (forall l :: l in ls && IsAssistantUsage(l) ==> exists k :: 0 <= k < |out| && SameName(out[k], l))
    && (forall k, name :: 0 <= k < |out| && Bears(out[k], name) ==> KeptFor(ls, out[k], name))
    && (forall j, k :: 0 <= j < k < |out| ==> !SameName(out[j], out[k]))
  }

  ghost predicate SameName(a: Line, b: Line) {
    exists name :: Bears(a, name) && Bears(b, name)
  }

  lemma BearsItsKey(l: Line, name: string)
    ensures Bears(l, name) <==> name == RequestKey(l)
  {
  }

  lemma SameKey(a: Line, b: Line)
    ensures SameName(a, b) <==> RequestKey(a) == RequestKey(b)
  {
    forall name
      ensures Bears(a, name) <==> name == RequestKey(a)
      ensures Bears(b, name) <==> name == RequestKey(b)
    {
      BearsItsKey(a, name);
      BearsItsKey(b, name);
    }
    assert Bears(a, RequestKey(a));
  }

  lemma {:induction false} RepresentativesAreLast(ls: seq<Line>)
    ensures LastOfEachName(ls, Representatives(ls))
  {
    var keys, out := Keys(ls), Representatives(ls);
    OnePerKey(ls);
    forall l | l in ls && IsAssistantUsage(l)
      ensures exists k :: 0 <= k < |out| && SameName(out[k], l)
    {
      var k :| 0 <= k < |keys| && keys[k] == RequestKey(l);
      SameKey(out[k], l);
    }
    forall k, name | 0 <= k < |out| && Bears(out[k], name)
      ensures KeptFor(ls, out[k], name)
    {
      BearsItsKey(out[k], name);
      KeptForKey(ls, name);
    }
    forall j, k | 0 <= j < k < |out|
      ensures !SameName(out[j], out[k])
    {
      SameKey(out[j], out[k]);
    }
  }

  lemma KeptForKey(ls: seq<Line>, key: string)
    requires LastOf(ls, key) >= 0
    ensures KeptFor(ls, ls[LastOf(ls, key)], key)
  {
    var i := LastOf(ls, key);
    forall j | i <= j < |ls|
      ensures Bears(ls[j], key) <==> key == RequestKey(ls[j])
    {
      BearsItsKey(ls[j], key);
    }
    assert LastBearing(ls, key, i);
  }

  method DedupeAssistantLines(lines: seq<Line>) returns (out: seq<Line>)
    ensures out == Representatives(lines)
    ensures LastOfEachName(lines, out)
  {
    var order: seq<string>, byKey: map<string, Line> := [], map[];
    assert lines[..0] == [];
    for i := 0 to |lines|
      invariant Grouped(lines[..i], order, byKey)
    {
      var l := lines[i];
      GroupedNext(lines[..i], l, order, byKey);
      assert lines[..i + 1] == lines[..i] + [l];
      if !IsAssistantUsage(l) {
        continue;
      }
      var key := RequestKey(l);
      if key !in byKey {
        order := order + [key];
      }
      byKey := byKey[key := l];
    }
    assert lines[..|lines|] == lines;
    out := [];
    for i := 0 to |order|
      invariant out == Representatives(lines)[..i]
    {
      assert order[i] in order;
      out := out + [byKey[order[i]]];
    }
    assert out == Representatives(lines);
    RepresentativesAreLast(lines);
  }

  // ---------- one poll of one file ----------

  /** JSON decoding and whitespace trimming, and the line types that are skipped in silence. */
  datatype Reader = Reader(parse: Bytes -> Option<Line>, blank: Bytes -> bool, tolerated: set<string>)

  datatype Tally = Tally(read: nat, malformed: nat, unknown: nat, silent: nat, assistants: seq<Line>)

  /** Every non-blank line is counted read, and then is exactly one of four things. */
  function TallyOf(r: Reader, raws: seq<Bytes>): (t: Tally)
    ensures t.read == t.malformed + t.unknown + t.silent + |t.assistants|
  {
    if raws == [] then Tally(0, 0, 0, 0, [])
    else
      var t, raw := TallyOf(r, raws[..|raws| - 1]), raws[|raws| - 1];
      if r.blank(raw) then t
      else match r.parse(raw)
        case None => t.(read := t.read + 1, malformed := t.malformed + 1)
        case Some(l) =>
          if l.kind == "assistant" then t.(read := t.read + 1, assistants := t.assistants + [l])
          else if l.kind in r.tolerated then t.(read := t.read + 1, silent := t.silent + 1)
          else t.(read := t.read + 1, unknown := t.unknown + 1)
  }

  function Places(raws: seq<Bytes>, p: Bytes -> bool): set<nat> {
    set i: nat | i < |raws| && p(raws[i])
  }

  lemma PlacesNext(raws: seq<Bytes>, raw: Bytes, p: Bytes -> bool)
    ensures |Places(raws + [raw], p)| == |Places(raws, p)| + if p(raw) then 1 else 0
  {
    assert forall i: nat :: i < |raws| ==> (raws + [raw])[i] == raws[i];
    assert (raws + [raw])[|raws|] == raw;
    assert Places(raws + [raw], p) == Places(raws, p) + if p(raw) then {|raws|} else {};
  }

  function NotBlank(r: Reader): Bytes -> bool {
    b => !r.blank(b)
  }

  function Unreadable(r: Reader): Bytes -> bool {
    b => !r.blank(b) && r.parse(b).None?
  }

  function Strange(r: Reader): Bytes -> bool {
    b => !r.blank(b) && r.parse(b).Some? && r.parse(b).value.kind != "assistant" && r.parse(b).value.kind !in r.tolerated
  }

  /** Read are the lines that are not blank; malformed those that do not parse; unknown those of no tolerated type. */
  lemma {:induction false} TallyExactly(r: Reader, raws: seq<Bytes>)
    ensures var t := TallyOf(r, raws);
            && t.read == |Places(raws, NotBlank(r))| && t.malformed == |Places(raws, Unreadable(r))|
            && t.unknown == |Places(raws, Strange(r))|
            && forall l :: l in t.assistants <==>
                 l.kind == "assistant" && exists i :: 0 <= i < |raws| && !r.blank(raws[i]) && r.parse(raws[i]) == Some(l)
    decreases |raws|
  {
    if raws != [] {
      var init, raw := raws[..|raws| - 1], raws[|raws| - 1];
      TallyExactly(r, init);
      assert raws == init + [raw];
      PlacesNext(init, raw, NotBlank(r));
      PlacesNext(init, raw, Unreadable(r));
      PlacesNext(init, raw, Strange(r));
      AssistantsNext(r, init, raw);
    }
  }

  lemma {:induction false} AssistantsNext(r: Reader, raws: seq<Bytes>, raw: Bytes)
    ensures forall l ::
              (exists i :: 0 <= i < |raws + [raw]| && !r.blank((raws + [raw])[i]) && r.parse((raws + [raw])[i]) == Some(l))
              <==> (exists i :: 0 <= i < |raws| && !r.blank(raws[i]) && r.parse(raws[i]) == Some(l))
                   || (!r.blank(raw) && r.parse(raw) == Some(l))
  {
    var all := raws + [raw];
    assert all[|raws|] == raw;
    assert forall i :: 0 <= i < |raws| ==> all[i] == raws[i];
  }

  datatype Stats = Stats(linesRead: nat, requestsFound: nat, unknown: nat, malformed: nat)

  /** The first loop of tailFile. */
  method Classify(reader: Reader, rawLines: seq<Bytes>) returns (tally: Tally)
    ensures tally == TallyOf(reader, rawLines)
  {
    tally := Tally(0, 0, 0, 0, []);
    assert rawLines[..0] == [];
    for i := 0 to |rawLines|
      invariant tally == TallyOf(reader, rawLines[..i])
    {
      assert rawLines[..i + 1][..i] == rawLines[..i];
      if reader.blank(rawLines[i]) {
        continue;
      }
      tally := tally.(read := tally.read + 1);
      var l := reader.parse(rawLines[i]);
      if l.None? {
        tally := tally.(malformed := tally.malformed + 1);
      } else if l.value.kind == "assistant" {
        tally := tally.(assistants := tally.assistants + [l.value]);
      } else if l.value.kind !in reader.tolerated {
        tally := tally.(unknown := tally.unknown + 1);
      } else {
        tally := tally.(silent := tally.silent + 1);
      }
    }
    assert rawLines[..|rawLines|] == rawLines;
  }

  class TranscriptTailer {
    const reader: Reader
    /** The offset stored for the file; 0 when none is. */
    var cursor: nat

    constructor (reader: Reader)
      ensures this.reader == reader && cursor == 0
    {
      this.reader, cursor := reader, 0;
    }

    /** tailFile: the requests of one poll, and the cursor moved past the lines they came from. */
    method TailFile(g: Glimpse) returns (requests: seq<Line>, stats: Stats)
      modifies this
      ensures cursor == Poll(old(cursor), g).cursor
      ensures var tally := TallyOf(reader, Poll(old(cursor), g).lines);
              && requests == Representatives(tally.assistants) && LastOfEachName(tally.assistants, requests)
              && stats == Stats(tally.read, |requests|, tally.unknown, tally.malformed)
    {
      var offset := 0;
      if g.loaded {
        offset := cursor;
      }
      if !g.readable {
        assert Representatives([]) == [];
        RepresentativesAreLast([]);
        return [], Stats(0, 0, 0, 0);
      }
      if g.size < offset {
        offset := 0;
      }
      var raw := Rest(g.content, offset);
      var consumed, rawLines := SplitCompleteLines(raw);
      var tally := Classify(reader, rawLines);
      requests := DedupeAssistantLines(tally.assistants);
      stats := Stats(tally.read, |requests|, tally.unknown, tally.malformed);
      if g.saved {
        cursor := offset + consumed;
      }
    }
  }
}
