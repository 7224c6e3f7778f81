/** Printing frames as an event stream, with any one of the three line endings, and reading them back. */
module SsePrint {
  import opened Prelude
  import opened Sse

  predicate IsEol(eol: Bytes) {
    eol == [LF] || eol == [CR] || eol == [CR, LF]
  }

  /** The lines with one line ending between any two. */
  function Block(lines: seq<Bytes>, eol: Bytes): Bytes {
    if lines == [] then []
    else if |lines| == 1 then lines[0]
    else lines[0] + (eol + Block(lines[1..], eol))
  }

  /** Every line has something on it and no line break in it. */
  predicate Solid(lines: seq<Bytes>) {
    forall l :: l in lines ==> l != [] && NoBreaks(l)
  }

  lemma Assoc(a: Bytes, b: Bytes, c: Bytes)
    ensures (a + b) + c == a + (b + c)
  {
  }

  lemma QuietLine(line: Bytes, rest: Bytes, k: nat)
    requires NoBreaks(line) && k < |line|
    ensures LookAt(line + rest, k) == Ordinary
  {
    assert (line + rest)[k] == line[k];
  }

  /** A line ending followed by more text ends no event. */
  lemma QuietEol(eol: Bytes, rest: Bytes, k: nat)
    requires IsEol(eol) && rest != [] && !IsBreak(rest[0]) && k < |eol|
    ensures LookAt(eol + rest, k) == Ordinary
  {
    var b := eol + rest;
    assert b[|eol|] == rest[0] && b[k] == eol[k];
    assert |eol| == 2 ==> b[0] == CR && b[1] == LF;
  }

  lemma SkipLine(line: Bytes, rest: Bytes)
    requires NoBreaks(line)
    ensures Find(line + rest) == Shifted(Find(rest), |line|)
  {
    forall k | 0 <= k < |line|
      ensures LookAt(line + rest, k) == Ordinary
    {
      QuietLine(line, rest, k);
    }
    FindShift(line, rest, 0);
  }

  lemma SkipEol(eol: Bytes, rest: Bytes)
    requires IsEol(eol) && rest != [] && !IsBreak(rest[0])
    ensures Find(eol + rest) == Shifted(Find(rest), |eol|)
  {
    forall k | 0 <= k < |eol|
      ensures LookAt(eol + rest, k) == Ordinary
    {
      QuietEol(eol, rest, k);
    }
    FindShift(eol, rest, 0);
  }

  lemma BlankLineEnds(eol: Bytes, rest: Bytes)
    requires IsEol(eol)
    ensures Find(eol + (eol + rest)) == Some(Cut(0, 2 * |eol|))
  {
    var b := eol + (eol + rest);
    assert forall k :: 0 <= k < |eol| ==> b[k] == eol[k] && b[|eol| + k] == eol[k];
    assert LookAt(b, 0) == Ends(2 * |eol|);
  }

  lemma LoneEolWaits(eol: Bytes)
    requires IsEol(eol)
    ensures Find(eol) == None
  {
    assert LookAt(eol, 0) == NeedMore;
  }

  lemma {:induction false} BlockStarts(lines: seq<Bytes>, eol: Bytes, rest: Bytes)
    requires lines != [] && Solid(lines)
    ensures lines[0] != [] && Block(lines, eol) != [] && Block(lines, eol)[0] == lines[0][0] && !IsBreak(lines[0][0])
    ensures (Block(lines, eol) + rest)[0] == lines[0][0]
  {
    assert lines[0] in lines;
  }

  lemma SolidTail(lines: seq<Bytes>)
    requires lines != [] && Solid(lines)
    ensures Solid(lines[1..]) && lines[0] != [] && NoBreaks(lines[0])
  {
    assert lines[0] in lines;
    assert forall l :: l in lines[1..] ==> l in lines;
  }

  function Shifted(at: Option<Cut>, k: nat): Option<Cut> {
    match at case None => None case Some(c) => Some(Cut(k + c.eventEnd, k + c.rest))
  }

  /** Searching a block and what follows it is searching what follows: no line ending in it is taken for a blank line. */
  lemma {:induction false} FindBlock(lines: seq<Bytes>, eol: Bytes, tail: Bytes)
    requires IsEol(eol) && lines != [] && Solid(lines)
    ensures Find(Block(lines, eol) + tail) == Shifted(Find(tail), |Block(lines, eol)|)
    decreases |lines|
  {
    SolidTail(lines);
    if |lines| == 1 {
      SkipLine(lines[0], tail);
    } else {
      var rest := lines[1..];
      FindBlock(rest, eol, tail);
      BlockStarts(rest, eol, tail);
      SkipOne(lines[0], eol, Block(rest, eol), tail);
    }
  }

  lemma SkipOne(line: Bytes, eol: Bytes, more: Bytes, tail: Bytes)
    requires NoBreaks(line) && IsEol(eol) && more + tail != [] && !IsBreak((more + tail)[0])
    ensures var k := |line| + |eol|;
            Find((line + (eol + more)) + tail) == Shifted(Find(more + tail), k)
  {
    SkipEol(eol, more + tail);
    SkipLine(line, eol + (more + tail));
    Assoc(line, eol + more, tail);
    Assoc(eol, more, tail);
  }

  lemma {:induction false} LinesAfter(line: Bytes, eol: Bytes, rest: Bytes)
    requires NoBreaks(line) && IsEol(eol) && (rest == [] || !IsBreak(rest[0]))
    ensures Lines(line + (eol + rest)) == [line] + Lines(rest)
  {
    CutLine(line, eol, rest);
    LineAt(line + (eol + rest), |line|);
  }

  lemma CutLine(line: Bytes, eol: Bytes, rest: Bytes)
    requires IsEol(eol) && (rest == [] || !IsBreak(rest[0]))
    ensures var b, k := line + (eol + rest), |line|;
            b[..k] == line && IsBreak(b[k]) && BreakLength(b, k) == |eol| && b[k + |eol|..] == rest
  {
    var b, k := line + (eol + rest), |line|;
    assert b[k] == eol[0];
    assert |eol| == 2 ==> b[k + 1] == eol[1];
    assert |eol| == 1 && rest != [] ==> b[k + 1] == rest[0];
  }

  /** A block's lines come back, whether or not its last line is ended. */
  lemma {:induction false} LinesOfBlock(lines: seq<Bytes>, eol: Bytes, tail: Bytes)
    requires IsEol(eol) && Solid(lines) && lines != [] && (tail == [] || tail == eol)
    ensures Lines(Block(lines, eol) + tail) == lines
    decreases |lines|
  {
    var line := lines[0];
    assert line in lines;
    if |lines| == 1 {
      if tail == [] {
        LastLine(line);
        assert line + tail == line;
      } else {
        LinesAfter(line, eol, []);
        LastLine([]);
        assert eol + [] == eol;
      }
    } else {
      var rest := lines[1..];
      var more := Block(rest, eol);
      assert forall l :: l in rest ==> l in lines;
      LinesOfBlock(rest, eol, tail);
      BlockStarts(rest, eol, tail);
      LinesAfter(line, eol, more + tail);
      Assoc(line, eol + more, tail);
      Assoc(eol, more, tail);
      assert [line] + rest == lines;
    }
  }

  // ---------- frames as lines ----------

  /** A data string's lines. */
  function Pieces(d: Bytes): (ps: seq<Bytes>)
    ensures ps != []
    ensures (forall i :: 0 <= i < |d| ==> d[i] != CR) ==> forall p :: p in ps ==> NoBreaks(p)
    decreases |d|
  {
    var k := LastLf(d, |d|);
    if k < 0 then [d] else Pieces(d[..k]) + [d[k + 1..]]
  }

  function LastLf(d: Bytes, i: nat): (r: int)
    requires i <= |d|
    ensures -1 <= r < i
    ensures r >= 0 ==> d[r] == LF
    ensures forall k :: r < k < i ==> d[k] != LF
  {
    if i == 0 then -1 else if d[i - 1] == LF then i - 1 else LastLf(d, i - 1)
  }

  lemma {:induction false} JoinPieces(d: Bytes)
    ensures Join(Pieces(d)) == d
    decreases |d|
  {
    var k := LastLf(d, |d|);
    if k >= 0 {
      var ps := Pieces(d[..k]);
      JoinPieces(d[..k]);
      JoinSnoc(ps, d[k + 1..]);
      CutAt(d, k);
    }
  }

  lemma {:induction false} JoinSnoc(ps: seq<Bytes>, p: Bytes)
    requires ps != []
    ensures Join(ps + [p]) == Join(ps) + [LF] + p
  {
    assert (ps + [p])[..|ps|] == ps;
  }

  lemma CutAt(d: Bytes, k: nat)
    requires k < |d| && d[k] == LF
    ensures d == d[..k] + [LF] + d[k + 1..]
  {
  }

  function DataLine(p: Bytes): Bytes {
    DATA + ([SPACE] + p)
  }

  function DataLines(ps: seq<Bytes>): seq<Bytes> {
    if ps == [] then [] else DataLines(ps[..|ps| - 1]) + [DataLine(ps[|ps| - 1])]
  }

  /** A frame to print, with or without an event: line. */
  datatype Printed = Printed(frame: Frame, named: bool)

  function PrintedLines(p: Printed): seq<Bytes> {
    (if p.named then [EVENT + ([SPACE] + p.frame.kind)] else []) + DataLines(Pieces(p.frame.data))
  }

  /**
   What can be printed so that it reads back: data without CR that is not the [DONE] sentinel, and either a
   trimmed, unbroken kind on its own line or the kind the data's own "type" field gives.
   */
  predicate Printable(lib: Lib, p: Printed) {
    Writable(lib, p) && p.frame.data != DONE
  }

  predicate Writable(lib: Lib, p: Printed) {
    && (forall i :: 0 <= i < |p.frame.data| ==> p.frame.data[i] != CR)
    && if p.named then p.frame.kind != [] && NoBreaks(p.frame.kind) && lib.trim(p.frame.kind) == p.frame.kind
       else p.frame.kind == lib.sniff(p.frame.data)
  }

  lemma {:induction false} DataLinesSolid(ps: seq<Bytes>)
    requires forall p :: p in ps ==> NoBreaks(p)
    ensures Solid(DataLines(ps)) && |DataLines(ps)| == |ps|
    ensures forall l :: l in DataLines(ps) ==> DATA <= l
  {
    if ps != [] {
      assert ps[|ps| - 1] in ps;
      assert forall p :: p in ps[..|ps| - 1] ==> p in ps;
      DataLinesSolid(ps[..|ps| - 1]);
    }
  }

  lemma PrintedSolid(lib: Lib, p: Printed)
    requires Writable(lib, p)
    ensures Solid(PrintedLines(p)) && PrintedLines(p) != []
    ensures PrintedLines(p)[0] != [] && 33 <= PrintedLines(p)[0][0] <= 126
  {
    DataLinesSolid(Pieces(p.frame.data));
    var l := PrintedLines(p)[0];
    assert p.named ==> l[0] == EVENT[0];
    assert !p.named ==> l in DataLines(Pieces(p.frame.data)) && l[0] == DATA[0];
  }

  lemma {:induction false} FieldsSnoc(lib: Lib, lines: seq<Bytes>, init: seq<Bytes>, p: Bytes)
    requires lines == init + [DataLine(p)]
    ensures FieldsOf(lib, lines) == Fields(FieldsOf(lib, init).kind, FieldsOf(lib, init).parts + [p])
  {
    assert lines[..|lines| - 1] == init;
    DataLineReads(p);
  }

  lemma {:induction false} FieldsOfData(lib: Lib, first: seq<Bytes>, ps: seq<Bytes>, kind: Bytes)
    requires FieldsOf(lib, first) == Fields(kind, [])
    ensures FieldsOf(lib, first + DataLines(ps)) == Fields(kind, ps)
    decreases |ps|
  {
    if ps == [] {
      assert first + DataLines(ps) == first;
    } else {
      var init, p := ps[..|ps| - 1], ps[|ps| - 1];
      FieldsOfData(lib, first, init, kind);
      FieldsGrow(lib, first, DataLines(init), p, kind, init);
      assert ps == init + [p];
    }
  }

  lemma {:induction false} FieldsGrow(lib: Lib, first: seq<Bytes>, lines: seq<Bytes>, p: Bytes, kind: Bytes,
                                      parts: seq<Bytes>)
    requires FieldsOf(lib, first + lines) == Fields(kind, parts)
    ensures FieldsOf(lib, first + (lines + [DataLine(p)])) == Fields(kind, parts + [p])
  {
    GlueEnd(first, lines, DataLine(p));
    FieldsSnoc(lib, first + (lines + [DataLine(p)]), first + lines, p);
  }

  lemma GlueEnd<T>(a: seq<T>, b: seq<T>, c: T)
    ensures a + (b + [c]) == (a + b) + [c]
  {
  }

  /** After the colon one space is dropped if there is one, and nothing else. */
  lemma OneSpaceOff(p: Bytes)
    ensures Unspaced([SPACE] + p) == p && (p == [] || p[0] != SPACE ==> Unspaced(p) == p)
  {
  }

  lemma DataLineReads(p: Bytes)
    ensures DATA <= DataLine(p) && !(EVENT <= DataLine(p)) && Unspaced(DataLine(p)[|DATA|..]) == p
  {
    assert DataLine(p)[0] == DATA[0] && EVENT[0] != DATA[0];
    assert DataLine(p)[|DATA|..] == [SPACE] + p;
  }

  lemma {:induction false} FieldsOfPrinted(lib: Lib, p: Printed)
    requires lib.Lawful() && Writable(lib, p)
    ensures FieldsOf(lib, PrintedLines(p)) == Fields(if p.named then p.frame.kind else [], Pieces(p.frame.data))
  {
    var ps := Pieces(p.frame.data);
    assert FieldsOf(lib, []) == Fields([], []);
    if p.named {
      var line := EVENT + ([SPACE] + p.frame.kind);
      assert line[|EVENT|..] == [SPACE] + p.frame.kind;
      var none: seq<Bytes> := [line][..0];
      assert none == [];
      assert FieldsOf(lib, [line]) == Fields(p.frame.kind, []);
      FieldsOfData(lib, [line], ps, p.frame.kind);
    } else {
      FieldsOfData(lib, [], ps, []);
      assert [] + DataLines(ps) == DataLines(ps);
    }
  }

  /** A printed block parses to its frame, its last line ended or not. */
  lemma {:induction false} ParseOfPrinted(lib: Lib, p: Printed, eol: Bytes, tail: Bytes)
    requires lib.Lawful() && Writable(lib, p) && IsEol(eol) && (tail == [] || tail == eol)
    ensures var raw := Block(PrintedLines(p), eol) + tail;
            Parse(lib, raw) == (if p.frame.data == DONE then None else Some(p.frame)) && lib.trim(raw) != []
  {
    var lines := PrintedLines(p);
    PrintedSolid(lib, p);
    LinesOfBlock(lines, eol, tail);
    FieldsOfPrinted(lib, p);
    FrameOfFields(lib, p);
    BlockStarts(lines, eol, tail);
  }

  lemma {:induction false} FrameOfFields(lib: Lib, p: Printed)
    requires Writable(lib, p)
    ensures FrameOf(lib, Fields(if p.named then p.frame.kind else [], Pieces(p.frame.data)))
         == if p.frame.data == DONE then None else Some(p.frame)
  {
    JoinPieces(p.frame.data);
  }

  /** The four words the parser knows, as text. */
  lemma WordsExactly()
    ensures EVENT == Ascii("event:") && DATA == Ascii("data:")
    ensures DONE == Ascii("[DONE]") && MESSAGE_STOP == Ascii("message_stop")
  {
  }

  function Ascii(s: string): Bytes {
    seq(|s|, i requires 0 <= i < |s| => if s[i] < 128 as char then s[i] as byte else 0)
  }

  /**
   A block's kind is that of its event: line when it has one and else the payload's own "type"; the payload [DONE]
   gives no frame either way.
   */
  lemma {:induction false} KindOfBlock(lib: Lib, data: Bytes, kind: Option<Bytes>, eol: Bytes, tail: Bytes)
    requires lib.Lawful() && IsEol(eol) && (tail == [] || tail == eol)
    requires forall i :: 0 <= i < |data| ==> data[i] != CR
    requires kind.Some? ==> kind.value != [] && NoBreaks(kind.value) && lib.trim(kind.value) == kind.value
    ensures var named := if kind.Some? then [EVENT + ([SPACE] + kind.value)] else [];
            Parse(lib, Block(named + DataLines(Pieces(data)), eol) + tail)
            == if data == DONE then None
               else Some(Frame(if kind.Some? then kind.value else lib.sniff(data), data))
  {
    var p := Printed(Frame(if kind.Some? then kind.value else lib.sniff(data), data), kind.Some?);
    ParseOfPrinted(lib, p, eol, tail);
  }

  /** A line that is neither an event: nor a data: line changes nothing, and a block without a data: line is no frame. */
  lemma {:induction false} OtherLineIgnored(lib: Lib, before: seq<Bytes>, line: Bytes, after: seq<Bytes>)
    requires !(EVENT <= line) && !(DATA <= line)
    ensures FieldsOf(lib, (before + [line]) + after) == FieldsOf(lib, before + after)
    decreases |after|
  {
    if after == [] {
      assert (before + [line]) + after == before + [line] && before + after == before;
      assert (before + [line])[..|before|] == before;
    } else {
      var init, last := after[..|after| - 1], after[|after| - 1];
      OtherLineIgnored(lib, before, line, init);
      FieldsLast(lib, (before + [line]) + after, (before + [line]) + init, last);
      FieldsLast(lib, before + after, before + init, last);
    }
  }

  lemma {:induction false} FieldsLast(lib: Lib, lines: seq<Bytes>, init: seq<Bytes>, last: Bytes)
    requires lines == init + [last]
    ensures var f := FieldsOf(lib, init);
            FieldsOf(lib, lines) == if EVENT <= last then f.(kind := lib.trim(last[|EVENT|..]))
                                    else if DATA <= last then f.(parts := f.parts + [Unspaced(last[|DATA|..])]) else f
  {
    assert lines[..|lines| - 1] == init;
  }

  // ---------- a stream ----------

  function PrintOne(p: Printed, eol: Bytes): Bytes {
    Block(PrintedLines(p), eol) + (eol + eol)
  }

  function PrintAll(ps: seq<Printed>, eol: Bytes): Bytes {
    if ps == [] then [] else PrintOne(ps[0], eol) + PrintAll(ps[1..], eol)
  }

  function FramesOfPrinted(ps: seq<Printed>): seq<Frame> {
    seq(|ps|, i requires 0 <= i < |ps| => ps[i].frame)
  }

  lemma {:induction false} SplitOne(lib: Lib, p: Printed, eol: Bytes, rest: Bytes)
    requires Printable(lib, p) && IsEol(eol)
    ensures Split(PrintOne(p, eol) + rest).events == [Block(PrintedLines(p), eol)] + Split(rest).events
    ensures Split(PrintOne(p, eol) + rest).carry == Split(rest).carry
  {
    var lines := PrintedLines(p);
    var block := Block(lines, eol);
    var buf := PrintOne(p, eol) + rest;
    PrintedSolid(lib, p);
    BlankLineEnds(eol, rest);
    FindBlock(lines, eol, eol + (eol + rest));
    Assoc(block, eol + eol, rest);
    Assoc(eol, eol, rest);
    var c := Cut(|block|, |block| + 2 * |eol|);
    assert buf[..c.eventEnd] == block && buf[c.rest..] == rest;
    SplitSome(buf, c);
  }

  function Blocks(ps: seq<Printed>, eol: Bytes): seq<Bytes> {
    seq(|ps|, i requires 0 <= i < |ps| => Block(PrintedLines(ps[i]), eol))
  }

  lemma BlocksCons(ps: seq<Printed>, eol: Bytes)
    requires ps != []
    ensures Blocks(ps, eol) == [Block(PrintedLines(ps[0]), eol)] + Blocks(ps[1..], eol)
    ensures FramesOfPrinted(ps) == [ps[0].frame] + FramesOfPrinted(ps[1..])
  {
  }

  lemma {:induction false} SplitMore(lib: Lib, p: Printed, eol: Bytes, more: Bytes, rest: Bytes, blocks: seq<Bytes>)
    requires Printable(lib, p) && IsEol(eol)
    requires Split(more + rest).events == blocks + Split(rest).events && Split(more + rest).carry == Split(rest).carry
    ensures var all := Split((PrintOne(p, eol) + more) + rest);
            && all.events == ([Block(PrintedLines(p), eol)] + blocks) + Split(rest).events
            && all.carry == Split(rest).carry
  {
    SplitOne(lib, p, eol, more + rest);
    Assoc(PrintOne(p, eol), more, rest);
    Glue(Block(PrintedLines(p), eol), blocks, Split(rest).events);
  }

  lemma {:induction false} SplitAll(lib: Lib, ps: seq<Printed>, eol: Bytes, rest: Bytes)
    requires (forall p :: p in ps ==> Printable(lib, p)) && IsEol(eol)
    ensures Split(PrintAll(ps, eol) + rest).events == Blocks(ps, eol) + Split(rest).events
    ensures Split(PrintAll(ps, eol) + rest).carry == Split(rest).carry
    decreases |ps|
  {
    if ps == [] {
      assert PrintAll(ps, eol) + rest == rest;
      assert Blocks(ps, eol) == [];
    } else {
      assert ps[0] in ps && forall p :: p in ps[1..] ==> p in ps;
      SplitAll(lib, ps[1..], eol, rest);
      SplitMore(lib, ps[0], eol, PrintAll(ps[1..], eol), rest, Blocks(ps[1..], eol));
      BlocksCons(ps, eol);
    }
  }

  lemma {:induction false} FrameOfBlock(lib: Lib, p: Printed, eol: Bytes)
    requires lib.Lawful() && Printable(lib, p) && IsEol(eol)
    ensures FramesOf(lib, [Block(PrintedLines(p), eol)]) == [p.frame]
  {
    var block := Block(PrintedLines(p), eol);
    ParseOfPrinted(lib, p, eol, []);
    assert block + [] == block;
    FramesSnoc(lib, [block], [], block);
  }

  lemma {:induction false} FramesOfBlocks(lib: Lib, ps: seq<Printed>, eol: Bytes)
    requires lib.Lawful() && (forall p :: p in ps ==> Printable(lib, p)) && IsEol(eol)
    ensures FramesOf(lib, Blocks(ps, eol)) == FramesOfPrinted(ps)
    decreases |ps|
  {
    if ps != [] {
      assert ps[0] in ps && forall q :: q in ps[1..] ==> q in ps;
      FramesOfBlocks(lib, ps[1..], eol);
      BlocksCons(ps, eol);
      FramesAppend(lib, [Block(PrintedLines(ps[0]), eol)], Blocks(ps[1..], eol));
      FrameOfBlock(lib, ps[0], eol);
    }
  }

  /** The end of a stream: nothing, or one last event whose blank line never came. */
  function Ending(last: Option<Printed>, eol: Bytes, tail: Bytes): Bytes {
    if last.Some? then Block(PrintedLines(last.value), eol) + tail else []
  }

  lemma {:induction false} EndingIsCarry(lib: Lib, last: Option<Printed>, eol: Bytes, tail: Bytes)
    requires IsEol(eol) && (tail == [] || tail == eol) && (last.Some? ==> Printable(lib, last.value))
    ensures Split(Ending(last, eol, tail)) == Cuts([], Ending(last, eol, tail))
  {
    if last.Some? {
      PrintedSolid(lib, last.value);
      LoneEolWaits(eol);
      FindBlock(PrintedLines(last.value), eol, tail);
    }
    SplitNone(Ending(last, eol, tail));
  }

  /**
   Frames printed with one line ending, the last perhaps without its blank line, come back exactly, in
   order, under any chunking; and the stream counts as complete exactly when one of them is message_stop.
   */
  lemma {:induction false} RoundTrip(lib: Lib, ps: seq<Printed>, last: Option<Printed>, eol: Bytes, tail: Bytes,
                                     chunks: seq<Bytes>)
    requires lib.Lawful() && IsEol(eol) && (tail == [] || tail == eol)
    requires (forall p :: p in ps ==> Printable(lib, p)) && (last.Some? ==> Printable(lib, last.value))
    requires Concat(chunks) == PrintAll(ps, eol) + Ending(last, eol, tail)
    ensures var frames := FramesOfPrinted(ps) + if last.Some? then [last.value.frame] else [];
            Parsed(lib, Concat(chunks)) == (frames, Stops(frames))
  {
    var end := Ending(last, eol, tail);
    var stream := Concat(chunks);
    SplitAll(lib, ps, eol, end);
    EndingIsCarry(lib, last, eol, tail);
    FramesOfBlocks(lib, ps, eol);
    assert [] + stream == stream;
    assert Blocks(ps, eol) + [] == Blocks(ps, eol);
    if last.Some? {
      ParseOfPrinted(lib, last.value, eol, tail);
    }
    VerdictIsStop(lib, stream);
  }
}
