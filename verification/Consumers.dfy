/**
 The consumer's flush under store failures (internal/consumer/consumer.go and retry.go): who is counted where,
 how often the store is asked, and what is still asked of it once it has exhausted one operation's retries.
 */
module Consumers {

  /** IsTransient splits the store's errors in two. */
  datatype Outcome = Done | Transient | Permanent

  /** A store operation's answer; `session` is the written row's, `findings` the row each session finding names, 0 for none. */
  datatype Reply = Reply(outcome: Outcome, session: string, findings: seq<nat>)

  /** What the store answers to its n-th attempt, and whether a wait after it finds the context cancelled. */
  datatype Env = Env(answer: nat -> Reply, cancelled: nat -> bool)

  datatype Pending = Pending(requestId: string, warned: bool)

  datatype Op =
    | Insert(call: Pending)
    | Warn(of: Pending)
    | Rows(session: string)
    | WarnRow(row: nat)
    | Record(session: string, first: Pending)

  // ---------- one operation ----------

  /** Attempts made at an operation that starts at attempt `at`, with `waits` waits left. */
  function Tries(env: Env, waits: nat, at: nat): (n: nat)
    ensures 1 <= n <= waits + 1
    decreases waits
  {
    if env.answer(at).outcome != Transient || waits == 0 || env.cancelled(at) then 1
    else 1 + Tries(env, waits - 1, at + 1)
  }

  /**
   Only a transient error is retried, and never past a cancelled wait; a transient error is the final answer
   only when the waits ran out or the context was cancelled.
   */
  lemma {:induction false} RetriedExactly(env: Env, waits: nat, at: nat, k: nat)
    requires at <= k < at + Tries(env, waits, at)
    ensures k < at + Tries(env, waits, at) - 1 ==> env.answer(k).outcome == Transient && !env.cancelled(k)
    ensures k == at + Tries(env, waits, at) - 1 && env.answer(k).outcome == Transient ==>
              Tries(env, waits, at) == waits + 1 || env.cancelled(k)
    decreases waits
  {
    if Tries(env, waits, at) > 1 && k > at {
      RetriedExactly(env, waits - 1, at + 1, k);
    }
  }

  /** withRetry: retries a transient error after each wait, unless the wait finds the context cancelled. */
  method WithRetry(env: Env, waits: nat, at: nat) returns (r: Reply, tries: nat)
    ensures tries == Tries(env, waits, at) && r == env.answer(at + tries - 1)
  {
    r, tries := env.answer(at), 1;
    for i := 0 to waits
      invariant tries == i + 1 && r == env.answer(at + i)
      invariant Tries(env, waits, at) == i + Tries(env, waits - i, at + i)
    {
      if r.outcome != Transient {
        return;
      }
      if env.cancelled(at + i) {
        return;
      }
      r, tries := env.answer(at + i + 1), tries + 1;
    }
  }

  /** One operation as it went: where it started and how many attempts it took. */
  datatype Group = Group(op: Op, at: nat, tries: nat)

  function Last(env: Env, g: Group): Reply {
    if g.tries == 0 then env.answer(g.at) else env.answer(g.at + g.tries - 1)
  }

  predicate Exhausted(env: Env, g: Group) {
    Last(env, g).outcome == Transient
  }

  /** The operations follow one another from attempt `from` to attempt `to`, each retried as it should be. */
  predicate Chain(env: Env, waits: nat, groups: seq<Group>, from: nat, to: nat) {
    if groups == [] then from == to
    else
      var g := groups[|groups| - 1];
      && g.tries == Tries(env, waits, g.at) && g.at + g.tries == to
      && Chain(env, waits, groups[..|groups| - 1], from, g.at)
  }

  /** No operation was started after one that exhausted its retries. */
  predicate StopsAtExhausted(env: Env, groups: seq<Group>) {
    forall i :: 0 <= i < |groups| - 1 ==> !Exhausted(env, groups[i])
  }

  predicate GaveUp(env: Env, groups: seq<Group>) {
    groups != [] && Exhausted(env, groups[|groups| - 1])
  }

  // ---------- what the operations say ----------

  /** The inserts, with what came of each. */
  datatype Written = Written(call: Pending, reply: Reply)

  function Inserts(env: Env, groups: seq<Group>): seq<Written> {
    if groups == [] then []
    else
      var g := groups[|groups| - 1];
      var before := Inserts(env, groups[..|groups| - 1]);
      if g.op.Insert? then before + [Written(g.op.call, Last(env, g))] else before
  }

  function Stored(ws: seq<Written>): seq<Written> {
    if ws == [] then []
    else
      var w := ws[|ws| - 1];
      if w.reply.outcome == Done then Stored(ws[..|ws| - 1]) + [w] else Stored(ws[..|ws| - 1])
  }

  function SessionPasses(groups: seq<Group>): seq<string> {
    if groups == [] then []
    else
      var g := groups[|groups| - 1];
      var before := SessionPasses(groups[..|groups| - 1]);
      if g.op.Rows? then before + [g.op.session] else before
  }

  datatype Fold = Fold(session: string, first: Pending)

  function Folds(groups: seq<Group>): seq<Fold> {
    if groups == [] then []
    else
      var g := groups[|groups| - 1];
      var before := Folds(groups[..|groups| - 1]);
      if g.op.Record? then before + [Fold(g.op.session, g.op.first)] else before
  }

  /** Each session among the stored rows, in first-seen order, with the first call stored under it. */
  function FirstOfEach(ws: seq<Written>): seq<Fold> {
    if ws == [] then []
    else
      var before, w := FirstOfEach(ws[..|ws| - 1]), ws[|ws| - 1];
      if w.reply.session == "" || exists i :: 0 <= i < |before| && before[i].session == w.reply.session then before
      else before + [Fold(w.reply.session, w.call)]
  }

  function SessionsOf(fs: seq<Fold>): seq<string> {
    seq(|fs|, i requires 0 <= i < |fs| => fs[i].session)
  }

  function CallsOf(ws: seq<Written>): seq<Pending> {
    seq(|ws|, i requires 0 <= i < |ws| => ws[i].call)
  }

  /** A flush writes rows first, then runs the session passes, then the folds. */
  function PhaseOf(op: Op): nat {
    if op.Insert? || op.Warn? then 0 else if op.Record? then 2 else 1
  }

  predicate Phased(groups: seq<Group>) {
    forall i, j :: 0 <= i < j < |groups| ==> PhaseOf(groups[i].op) <= PhaseOf(groups[j].op)
  }

  predicate UpTo(groups: seq<Group>, phase: nat) {
    Phased(groups) && forall i :: 0 <= i < |groups| ==> PhaseOf(groups[i].op) <= phase
  }

  lemma PhaseGrow(groups: seq<Group>, g: Group, phase: nat)
    requires UpTo(groups, phase) && PhaseOf(g.op) == phase
    ensures UpTo(groups + [g], phase)
  {
  }

  /** The first written row with this session. */
  predicate FirstOf(ws: seq<Written>, session: string, k: nat) {
    k < |ws| && ws[k].reply.session == session && forall j :: 0 <= j < k ==> ws[j].reply.session != session
  }

  ghost predicate FoldsFirst(ws: seq<Written>, f: Fold) {
    f.session != "" && exists k: nat :: FirstOf(ws, f.session, k) && f.first == ws[k].call
  }

  predicate Folded(fs: seq<Fold>, session: string) {
    exists i :: 0 <= i < |fs| && fs[i].session == session
  }

  lemma FoldsFirstStill(ws: seq<Written>, w: Written, f: Fold)
    requires FoldsFirst(ws, f)
    ensures FoldsFirst(ws + [w], f)
  {
    var k: nat :| FirstOf(ws, f.session, k) && f.first == ws[k].call;
    assert FirstOf(ws + [w], f.session, k) && (ws + [w])[k] == ws[k];
  }

  lemma FoldsFirstNow(ws: seq<Written>, w: Written)
    requires w.reply.session != "" && forall k :: 0 <= k < |ws| ==> ws[k].reply.session != w.reply.session
    ensures FoldsFirst(ws + [w], Fold(w.reply.session, w.call))
  {
    assert FirstOf(ws + [w], w.reply.session, |ws|) && (ws + [w])[|ws|] == w;
  }

  lemma FoldedNext(fs: seq<Fold>, f: Fold, session: string)
    ensures Folded(fs + [f], session) <==> Folded(fs, session) || f.session == session
  {
    assert (fs + [f])[|fs|] == f;
    assert forall i :: 0 <= i < |fs| ==> (fs + [f])[i] == fs[i];
  }

  /**
   Each non-empty session of the written rows exactly once, with the call of the first row written under it; a
   later row only ever adds to the end.
   */
  lemma {:induction false} FirstOfEachExactly(ws: seq<Written>)
    ensures var fs := FirstOfEach(ws);
            && (forall f :: f in fs ==> FoldsFirst(ws, f))
            && (forall i, j :: 0 <= i < j < |fs| ==> fs[i].session != fs[j].session)
            && (forall k :: 0 <= k < |ws| && ws[k].reply.session != "" ==> Folded(fs, ws[k].reply.session))
            && (ws != [] ==> FirstOfEach(ws[..|ws| - 1]) <= fs)
    decreases |ws|
  {
    if ws != [] {
      var init, w := ws[..|ws| - 1], ws[|ws| - 1];
      assert ws == init + [w];
      FirstOfEachExactly(init);
      var before := FirstOfEach(init);
      forall f | f in before
        ensures FoldsFirst(ws, f)
      {
        FoldsFirstStill(init, w, f);
      }
      if w.reply.session != "" && !Folded(before, w.reply.session) {
        FoldsFirstNow(init, w);
        forall k | 0 <= k < |ws| && ws[k].reply.session != ""
          ensures Folded(FirstOfEach(ws), ws[k].reply.session)
        {
          FoldedNext(before, Fold(w.reply.session, w.call), ws[k].reply.session);
        }
      }
    }
  }

  /** The stored rows are the written ones answered Done, in the order written. */
  lemma {:induction false} StoredExactly(ws: seq<Written>, more: seq<Written>, w: Written)
    ensures Stored([]) == [] && Stored([w]) == if w.reply.outcome == Done then [w] else []
    ensures Stored(ws + more) == Stored(ws) + Stored(more)
    decreases |more|
  {
    StoredSnoc([w], [], w);
    if more == [] {
      assert ws + more == ws;
    } else {
      var init, last := more[..|more| - 1], more[|more| - 1];
      StoredExactly(ws, init, w);
      StoredSnoc(ws + more, ws + init, last);
      StoredSnoc(more, init, last);
    }
  }

  lemma {:induction false} StoredSnoc(ws: seq<Written>, init: seq<Written>, last: Written)
    requires ws == init + [last]
    ensures Stored(ws) == Stored(init) + if last.reply.outcome == Done then [last] else []
  {
    StoredNext(init, last);
  }

  /** The consumer's `order` and `firstEv` together. */
  ghost predicate Keeps(fs: seq<Fold>, order: seq<string>, firstEv: map<string, Pending>) {
    && |fs| == |order|
    && (forall i :: 0 <= i < |order| ==>
          order[i] == fs[i].session && order[i] in firstEv && firstEv[order[i]] == fs[i].first)
    && (forall s :: s in firstEv ==> s in order)
  }

  lemma OrderIs(fs: seq<Fold>, order: seq<string>, firstEv: map<string, Pending>)
    requires Keeps(fs, order, firstEv)
    ensures order == SessionsOf(fs)
  {
  }

  lemma KeepsNext(fs: seq<Fold>, order: seq<string>, firstEv: map<string, Pending>, ws: seq<Written>, w: Written)
    requires fs == FirstOfEach(ws) && Keeps(fs, order, firstEv)
    ensures var next := FirstOfEach(ws + [w]);
            if w.reply.session != "" && w.reply.session !in firstEv
            then Keeps(next, order + [w.reply.session], firstEv[w.reply.session := w.call])
            else Keeps(next, order, firstEv)
  {
    assert (ws + [w])[..|ws|] == ws;
    assert w.reply.session in firstEv <==> exists i :: 0 <= i < |fs| && fs[i].session == w.reply.session;
  }

  lemma StoredNext(ws: seq<Written>, w: Written)
    ensures Stored(ws + [w]) == if w.reply.outcome == Done then Stored(ws) + [w] else Stored(ws)
  {
    assert (ws + [w])[..|ws|] == ws;
  }

  /** The operations so far, and whether the last one made the flush give up. */
  ghost predicate Sound(env: Env, waits: nat, groups: seq<Group>, from: nat, to: nat, gaveUp: bool) {
    Chain(env, waits, groups, from, to) && StopsAtExhausted(env, groups) && gaveUp == GaveUp(env, groups)
  }

  ghost predicate OnlyWrites(groups: seq<Group>) {
    UpTo(groups, 0) && SessionPasses(groups) == [] && Folds(groups) == []
  }

  lemma OnlyWritesGrow(env: Env, groups: seq<Group>, g: Group)
    requires OnlyWrites(groups) && (g.op.Insert? || g.op.Warn?)
    ensures OnlyWrites(groups + [g])
    ensures Inserts(env, groups + [g])
         == if g.op.Insert? then Inserts(env, groups) + [Written(g.op.call, Last(env, g))] else Inserts(env, groups)
  {
    PhaseGrow(groups, g, 0);
    assert (groups + [g])[..|groups|] == groups;
  }

  lemma {:induction false} SoundGrow(env: Env, waits: nat, groups: seq<Group>, g: Group, from: nat, to: nat)
    requires Sound(env, waits, groups, from, g.at, false)
    requires g.tries == Tries(env, waits, g.at) && g.at + g.tries == to
    ensures Sound(env, waits, groups + [g], from, to, Exhausted(env, g))
  {
    assert (groups + [g])[..|groups|] == groups;
  }

  // ---------- warnings owed ----------

  /** The warnings the store still has to be given: a written call's own, or those of the rows a session pass named. */
  datatype Due = Clear | CallDue(call: Pending) | RowsDue(rows: set<nat>)

  predicate NothingDue(d: Due) {
    d.Clear? || d == RowsDue({})
  }

  function Named(r: Reply): set<nat> {
    set row | row in r.findings && row != 0
  }

  function DueAfter(env: Env, groups: seq<Group>): Due {
    if groups == [] then Clear
    else
      var g := groups[|groups| - 1];
      match g.op
      case Insert(call) => if Last(env, g).outcome == Done && call.warned then CallDue(call) else Clear
      case Rows(_) => if Last(env, g).outcome == Done then RowsDue(Named(Last(env, g))) else Clear
      case WarnRow(row) =>
        (match DueAfter(env, groups[..|groups| - 1])
         case RowsDue(rows) => RowsDue(rows - {row})
         case _ => Clear)
      case _ => Clear
  }

  /** Whatever is due comes first, and no warning is given that is not. */
  predicate Allowed(d: Due, op: Op) {
    if NothingDue(d) then !op.Warn? && !op.WarnRow?
    else if d.CallDue? then op == Warn(d.call)
    else op.WarnRow? && op.row in d.rows
  }

  predicate Settles(env: Env, groups: seq<Group>) {
    groups == [] || (Settles(env, groups[..|groups| - 1])
                     && Allowed(DueAfter(env, groups[..|groups| - 1]), groups[|groups| - 1].op))
  }

  /** Every warning due was given in turn, up to the end or to where the flush gave up. */
  predicate Paid(env: Env, groups: seq<Group>, gaveUp: bool) {
    Settles(env, groups) && (gaveUp || NothingDue(DueAfter(env, groups)))
  }

  lemma SettlesGrow(env: Env, groups: seq<Group>, g: Group)
    requires Settles(env, groups) && Allowed(DueAfter(env, groups), g.op)
    ensures Settles(env, groups + [g])
    ensures DueAfter(env, groups + [g]) ==
      match g.op
      case Insert(call) => if Last(env, g).outcome == Done && call.warned then CallDue(call) else Clear
      case Rows(_) => if Last(env, g).outcome == Done then RowsDue(Named(Last(env, g))) else Clear
      case WarnRow(row) => RowsDue(DueAfter(env, groups).rows - {row})
      case _ => Clear
  {
    assert (groups + [g])[..|groups|] == groups;
  }

  lemma {:induction false} SettlesPrefix(env: Env, groups: seq<Group>, n: nat)
    requires Settles(env, groups) && n <= |groups|
    ensures Settles(env, groups[..n])
    ensures n < |groups| ==> Allowed(DueAfter(env, groups[..n]), groups[n].op)
    decreases |groups|
  {
    if n < |groups| {
      var init := groups[..|groups| - 1];
      assert init[..n] == groups[..n];
      if n < |init| {
        SettlesPrefix(env, init, n);
      } else {
        assert init == groups[..n];
      }
    } else {
      assert groups[..n] == groups;
    }
  }

  /** Right after a warned call's insert is answered Done its warnings are given, and at no other time are any. */
  lemma {:induction false} WarnedNext(env: Env, groups: seq<Group>, gaveUp: bool, i: nat)
    requires Paid(env, groups, gaveUp) && gaveUp == GaveUp(env, groups) && i < |groups|
    ensures groups[i].op.Insert? && groups[i].op.call.warned && Last(env, groups[i]).outcome == Done ==>
              i + 1 < |groups| && groups[i + 1].op == Warn(groups[i].op.call)
    ensures groups[i].op.Warn? ==>
              i > 0 && groups[i - 1].op == Insert(groups[i].op.of) && groups[i].op.of.warned
              && Last(env, groups[i - 1]).outcome == Done
  {
    assert groups[..i + 1][..i] == groups[..i];
    if i + 1 < |groups| {
      SettlesPrefix(env, groups, i + 1);
    } else {
      assert groups[..i + 1] == groups;
    }
    SettlesPrefix(env, groups, i);
  }

  /** The groups from `i` to `j` are all warnings of rows. */
  predicate RowWarnings(groups: seq<Group>, i: nat, j: nat) {
    i <= j <= |groups| && forall k :: i <= k < j ==> groups[k].op.WarnRow?
  }

  predicate WarnedIn(groups: seq<Group>, i: nat, j: nat, row: nat)
    requires j <= |groups|
  {
    exists k :: i <= k < j && groups[k].op == WarnRow(row)
  }

  /** After a session pass answered Done and `n` row warnings, the rows still due are the named ones not warned yet. */
  lemma {:induction false} DueInPass(env: Env, groups: seq<Group>, i: nat, j: nat)
    requires Settles(env, groups) && i < j <= |groups| && RowWarnings(groups, i + 1, j)
    requires groups[i].op.Rows? && Last(env, groups[i]).outcome == Done
    ensures DueAfter(env, groups[..j]).RowsDue?
    ensures forall row :: row in DueAfter(env, groups[..j]).rows
                     <==> row in Named(Last(env, groups[i])) && !WarnedIn(groups, i + 1, j, row)
    decreases j
  {
    if j == i + 1 {
      assert groups[..j][..i] == groups[..i];
    } else {
      assert groups[..j][..j - 1] == groups[..j - 1];
      DueInPass(env, groups, i, j - 1);
      var before := j - 1;
      forall row | row in Named(Last(env, groups[i]))
        ensures row in DueAfter(env, groups[..j]).rows
           <==> row in DueAfter(env, groups[..before]).rows && groups[before].op.row != row
      {
        WarnedSnoc(groups, i + 1, j, row);
      }
      forall row | row in Named(Last(env, groups[i]))
        ensures row in DueAfter(env, groups[..j]).rows <==> !WarnedIn(groups, i + 1, j, row)
      {
        WarnedSnoc(groups, i + 1, j, row);
      }
    }
  }

  lemma WarnedSnoc(groups: seq<Group>, i: nat, j: nat, row: nat)
    requires i < j <= |groups| && groups[j - 1].op.WarnRow?
    ensures WarnedIn(groups, i, j, row) <==> WarnedIn(groups, i, j - 1, row) || groups[j - 1].op.row == row
  {
  }

  /**
   After a session pass answered Done: no row it did not name is warned, none twice, and every row it named is,
   before anything else is asked of the store, unless the flush gave up on the way.
   */
  lemma {:induction false} FindingsWritten(env: Env, groups: seq<Group>, gaveUp: bool, i: nat, j: nat)
    requires Paid(env, groups, gaveUp) && i < j <= |groups| && RowWarnings(groups, i + 1, j)
    requires groups[i].op.Rows? && Last(env, groups[i]).outcome == Done
    requires j < |groups| ==> !groups[j].op.WarnRow?
    ensures forall k :: i < k < j ==> groups[k].op.row in Named(Last(env, groups[i]))
    ensures forall k, l :: i < k < l < j ==> groups[k].op.row != groups[l].op.row
    ensures j < |groups| || !gaveUp ==>
              forall row :: row in Last(env, groups[i]).findings && row != 0 ==> WarnedIn(groups, i + 1, j, row)
  {
    forall k | i < k < j
      ensures groups[k].op.row in Named(Last(env, groups[i])) && !WarnedIn(groups, i + 1, k, groups[k].op.row)
    {
      DueInPass(env, groups, i, k);
      SettlesPrefix(env, groups, k);
    }
    DueInPass(env, groups, i, j);
    if j < |groups| {
      SettlesPrefix(env, groups, j);
    } else {
      assert groups[..j] == groups;
    }
    forall row | (j < |groups| || !gaveUp) && row in Last(env, groups[i]).findings && row != 0
      ensures WarnedIn(groups, i + 1, j, row)
    {
      assert row in Named(Last(env, groups[i]));
      NothingLeft(env, groups, i, j, gaveUp);
      assert row !in DueAfter(env, groups[..j]).rows;
    }
  }

  lemma NothingLeft(env: Env, groups: seq<Group>, i: nat, j: nat, gaveUp: bool)
    requires Paid(env, groups, gaveUp) && j <= |groups| && DueAfter(env, groups[..j]).RowsDue?
    requires j < |groups| ==> !groups[j].op.WarnRow?
    requires j < |groups| || !gaveUp
    ensures DueAfter(env, groups[..j]).rows == {}
  {
    if j < |groups| {
      SettlesPrefix(env, groups, j);
    } else {
      assert groups[..j] == groups;
    }
  }

  /** A row is warned only within a session pass that was answered. */
  lemma {:induction false} RowWarnedInPass(env: Env, groups: seq<Group>, j: nat) returns (i: nat)
    requires Settles(env, groups) && j < |groups| && groups[j].op.WarnRow?
    ensures i < j && groups[i].op.Rows? && Last(env, groups[i]).outcome == Done && RowWarnings(groups, i + 1, j)
    decreases j
  {
    SettlesPrefix(env, groups, j);
    assert j > 0;
    assert groups[..j][..j - 1] == groups[..j - 1];
    if groups[j - 1].op.WarnRow? {
      i := RowWarnedInPass(env, groups, j - 1);
    } else {
      i := j - 1;
    }
  }

  class Consumer {
    const env: Env
    const waits: nat
    const hasRule: bool
    const hasAggregator: bool
    const batchSize: nat
    var attempts: nat
    var processed: nat
    var failed: nat
    var drained: nat
    var flushCount: nat
    var transientRetries: nat
    var transientGaveUp: nat
    var wroteLast: bool

    /** The calls flushed so far, in order, and how many of them are in the store. */
    ghost var flushed: seq<Pending>
    ghost var stored: nat

    constructor (env: Env, waits: nat, batchSize: nat, hasRule: bool, hasAggregator: bool)
      ensures this.env == env && this.waits == waits && this.batchSize == batchSize
      ensures this.hasRule == hasRule && this.hasAggregator == hasAggregator
      ensures attempts == processed == failed == drained == flushCount == stored == 0 && flushed == []
      ensures transientRetries == transientGaveUp == 0
    {
      this.env, this.waits, this.batchSize := env, waits, batchSize;
      this.hasRule, this.hasAggregator := hasRule, hasAggregator;
      attempts, processed, failed, drained, flushCount, transientRetries, transientGaveUp := 0, 0, 0, 0, 0, 0, 0;
      wroteLast, flushed, stored := false, [], 0;
    }

    /** try: one operation, and the flush's give-up flag. */
    method Try(op: Op, ghost groups: seq<Group>, ghost from: nat) returns (r: Reply, gaveUp: bool, ghost g: Group)
      requires Sound(env, waits, groups, from, attempts, false)
      modifies this`attempts, this`transientRetries, this`transientGaveUp
      ensures attempts > old(attempts) && g == Group(op, old(attempts), attempts - old(attempts))
      ensures Sound(env, waits, groups + [g], from, attempts, gaveUp)
      ensures gaveUp == (r.outcome == Transient) && r == Last(env, g)
      ensures transientGaveUp == old(transientGaveUp) + if gaveUp then 1 else 0
      ensures transientRetries - old(transientRetries) == attempts - old(attempts) - 1
    {
      ghost var at := attempts;
      var tries;
      r, tries := WithRetry(env, waits, attempts);
      attempts, transientRetries := attempts + tries, transientRetries + tries - 1;
      g := Group(op, at, tries);
      SoundGrow(env, waits, groups, g, from, attempts);
      gaveUp := r.outcome == Transient;
      if gaveUp {
        transientGaveUp := transientGaveUp + 1;
      }
    }

    /** A written call's own warnings. */
    method WarnCall(call: Pending, ghost groups: seq<Group>, ghost from: nat) returns (gaveUp: bool, ghost groups': seq<Group>)
      requires Sound(env, waits, groups, from, attempts, false) && OnlyWrites(groups)
      requires Settles(env, groups) && DueAfter(env, groups) == CallDue(call)
      modifies this`attempts, this`transientRetries, this`transientGaveUp
      ensures Sound(env, waits, groups', from, attempts, gaveUp) && OnlyWrites(groups') && Paid(env, groups', gaveUp)
      ensures Inserts(env, groups') == Inserts(env, groups) && |groups'| == |groups| + 1
      ensures transientGaveUp == old(transientGaveUp) + if gaveUp then 1 else 0
      ensures transientRetries - old(transientRetries) == attempts - old(attempts) - 1
    {
      var r;
      ghost var g;
      r, gaveUp, g := Try(Warn(call), groups, from);
      OnlyWritesGrow(env, groups, g);
      SettlesGrow(env, groups, g);
      groups' := groups + [g];
    }

    /** One call's turn in phase 1. */
    method WriteCall(call: Pending, order: seq<string>, firstEv: map<string, Pending>,
                     ghost groups: seq<Group>, ghost from: nat)
      returns (order': seq<string>, firstEv': map<string, Pending>, wrote: bool, gaveUp: bool,
               ghost groups': seq<Group>, ghost w: Written)
      requires Sound(env, waits, groups, from, attempts, false) && OnlyWrites(groups) && Paid(env, groups, false)
      requires Keeps(FirstOfEach(Stored(Inserts(env, groups))), order, firstEv)
      modifies this`attempts, this`transientRetries, this`transientGaveUp
      ensures Sound(env, waits, groups', from, attempts, gaveUp) && OnlyWrites(groups') && Paid(env, groups', gaveUp)
      ensures w.call == call && Inserts(env, groups') == Inserts(env, groups) + [w]
      ensures wrote <==> w.reply.outcome == Done
      ensures Keeps(FirstOfEach(Stored(Inserts(env, groups'))), order', firstEv')
      ensures transientGaveUp == old(transientGaveUp) + if gaveUp then 1 else 0
      ensures transientRetries - old(transientRetries) == attempts - old(attempts) - (|groups'| - |groups|)
    {
      order', firstEv' := order, firstEv;
      var r;
      ghost var g;
      r, gaveUp, g := Try(Insert(call), groups, from);
      OnlyWritesGrow(env, groups, g);
      SettlesGrow(env, groups, g);
      groups', w := groups + [g], Written(call, r);
      StoredNext(Inserts(env, groups), w);
      if r.outcome != Done {
        return order', firstEv', false, gaveUp, groups', w;
      }
      wrote := true;
      KeepsNext(FirstOfEach(Stored(Inserts(env, groups))), order, firstEv, Stored(Inserts(env, groups)), w);
      if call.warned {
        gaveUp, groups' := WarnCall(call, groups', from);
      }
      if r.session != "" && r.session !in firstEv {
        firstEv' := firstEv[r.session := call];
        order' := order + [r.session];
      }
    }

    /** Phase 1: every call is written on its own; once the flush gave up, the rest fail unasked. */
    method WriteCalls(batch: seq<Pending>)
      returns (order: seq<string>, firstEv: map<string, Pending>, wrote: bool, gaveUp: bool, ghost groups: seq<Group>)
      modifies this`attempts, this`transientRetries, this`transientGaveUp, this`failed
      ensures Sound(env, waits, groups, old(attempts), attempts, gaveUp) && OnlyWrites(groups) && Paid(env, groups, gaveUp)
      ensures Accounts(batch, Inserts(env, groups), gaveUp, wrote, failed - old(failed))
      ensures Keeps(FirstOfEach(Stored(Inserts(env, groups))), order, firstEv)
      ensures transientGaveUp == old(transientGaveUp) + if gaveUp then 1 else 0
      ensures transientRetries - old(transientRetries) == attempts - old(attempts) - |groups|
    {
      order, firstEv, wrote, gaveUp, groups := [], map[], false, false, [];
      ghost var from := attempts;
      AccountsNone(batch);
      for i := 0 to |batch|
        invariant Sound(env, waits, groups, from, attempts, gaveUp) && OnlyWrites(groups) && Paid(env, groups, gaveUp)
        invariant Accounts(batch[..i], Inserts(env, groups), gaveUp, wrote, failed - old(failed))
        invariant Keeps(FirstOfEach(Stored(Inserts(env, groups))), order, firstEv)
        invariant transientGaveUp == old(transientGaveUp) + if gaveUp then 1 else 0
        invariant transientRetries - old(transientRetries) == attempts - from - |groups|
      {
        ghost var ws, failures := Inserts(env, groups), failed - old(failed);
        if gaveUp {
          AccountsFailed(batch, i, ws, wrote, failures);
          failed := failed + 1;
        } else {
          var stored;
          ghost var w;
          order, firstEv, stored, gaveUp, groups, w := WriteCall(batch[i], order, firstEv, groups, from);
          AccountsAsked(batch, i, ws, wrote, failures, w, gaveUp);
          if stored {
            wrote := true;
          } else {
            failed := failed + 1;
          }
        }
      }
      assert batch[..|batch|] == batch;
    }

    /** runSessionRule: reads the session's rows, then gives each row named its findings in one call, in any order. */
    method RunSessionRule(session: string, ghost groups: seq<Group>, ghost from: nat)
      returns (gaveUp: bool, ghost groups': seq<Group>)
      requires Sound(env, waits, groups, from, attempts, false) && UpTo(groups, 1) && Paid(env, groups, false)
      modifies this`attempts, this`transientRetries, this`transientGaveUp
      ensures Sound(env, waits, groups', from, attempts, gaveUp) && UpTo(groups', 1) && Paid(env, groups', gaveUp)
      ensures SameWrites(env, groups, groups') && SessionPasses(groups') == SessionPasses(groups) + [session]
      ensures transientGaveUp == old(transientGaveUp) + if gaveUp then 1 else 0
      ensures transientRetries - old(transientRetries) == attempts - old(attempts) - (|groups'| - |groups|)
    {
      var r;
      ghost var g;
      r, gaveUp, g := Try(Rows(session), groups, from);
      RuleGrow(env, groups, g);
      SettlesGrow(env, groups, g);
      groups' := groups + [g];
      if r.outcome != Done {
        return;
      }
      var grouped := set row | row in r.findings && row != 0;
      while grouped != {}
        invariant Sound(env, waits, groups', from, attempts, gaveUp) && UpTo(groups', 1)
        invariant Settles(env, groups') && DueAfter(env, groups') == RowsDue(grouped)
        invariant SameWrites(env, groups, groups') && SessionPasses(groups') == SessionPasses(groups) + [session]
        invariant transientGaveUp == old(transientGaveUp) + if gaveUp then 1 else 0
        invariant transientRetries - old(transientRetries) == attempts - old(attempts) - (|groups'| - |groups|)
        decreases grouped
      {
        if gaveUp {
          return;
        }
        var row: nat :| row in grouped;
        var warned;
        warned, gaveUp, g := Try(WarnRow(row), groups', from);
        RuleGrow(env, groups', g);
        SettlesGrow(env, groups', g);
        groups' := groups' + [g];
        grouped := grouped - {row};
      }
    }

    /** Phase 2: one session pass per distinct session of the batch. */
    method RunRules(order: seq<string>, ghost groups: seq<Group>, ghost from: nat, gaveUp0: bool)
      returns (gaveUp: bool, ghost groups': seq<Group>)
      requires Sound(env, waits, groups, from, attempts, gaveUp0) && OnlyWrites(groups) && Paid(env, groups, gaveUp0)
      modifies this`attempts, this`transientRetries, this`transientGaveUp
      ensures Sound(env, waits, groups', from, attempts, gaveUp) && UpTo(groups', 1) && Paid(env, groups', gaveUp)
      ensures SameWrites(env, groups, groups') && Folds(groups') == []
      ensures SessionPasses(groups') <= order && (gaveUp || SessionPasses(groups') == order)
      ensures transientGaveUp - old(transientGaveUp) == if gaveUp && !gaveUp0 then 1 else 0
      ensures gaveUp0 ==> gaveUp
      ensures transientRetries - old(transientRetries) == attempts - old(attempts) - (|groups'| - |groups|)
    {
      gaveUp, groups' := gaveUp0, groups;
      assert order[..0] == [];
      for i := 0 to |order|
        invariant Sound(env, waits, groups', from, attempts, gaveUp) && UpTo(groups', 1) && Paid(env, groups', gaveUp)
        invariant SameWrites(env, groups, groups')
        invariant SessionPasses(groups') == order[..i]
        invariant transientGaveUp - old(transientGaveUp) == if gaveUp && !gaveUp0 then 1 else 0
        invariant gaveUp0 ==> gaveUp
        invariant transientRetries - old(transientRetries) == attempts - old(attempts) - (|groups'| - |groups|)
      {
        assert order[..i + 1] == order[..i] + [order[i]];
        if gaveUp {
          return;
        }
        gaveUp, groups' := RunSessionRule(order[i], groups', from);
      }
      assert order[..|order|] == order;
    }

    /** Phase 3: one fold per distinct session, after every pass. */
    method RecordSessions(order: seq<string>, firstEv: map<string, Pending>, ghost fs: seq<Fold>, ghost groups: seq<Group>,
                          ghost from: nat, gaveUp0: bool)
      returns (gaveUp: bool, ghost groups': seq<Group>)
      requires Sound(env, waits, groups, from, attempts, gaveUp0) && UpTo(groups, 1) && Folds(groups) == []
      requires Paid(env, groups, gaveUp0)
      requires Keeps(fs, order, firstEv)
      modifies this`attempts, this`transientRetries, this`transientGaveUp
      ensures Sound(env, waits, groups', from, attempts, gaveUp) && UpTo(groups', 2) && Paid(env, groups', gaveUp)
      ensures Inserts(env, groups') == Inserts(env, groups) && SessionPasses(groups') == SessionPasses(groups)
      ensures Folds(groups') <= fs && (gaveUp || Folds(groups') == fs)
      ensures gaveUp0 ==> gaveUp
      ensures transientGaveUp - old(transientGaveUp) == if gaveUp && !gaveUp0 then 1 else 0
      ensures transientRetries - old(transientRetries) == attempts - old(attempts) - (|groups'| - |groups|)
    {
      gaveUp, groups' := gaveUp0, groups;
      assert fs[..0] == [];
      for i := 0 to |order|
        invariant Sound(env, waits, groups', from, attempts, gaveUp) && UpTo(groups', 2) && Paid(env, groups', gaveUp)
        invariant Inserts(env, groups') == Inserts(env, groups) && SessionPasses(groups') == SessionPasses(groups)
        invariant Folds(groups') == fs[..i]
        invariant transientGaveUp - old(transientGaveUp) == if gaveUp && !gaveUp0 then 1 else 0
        invariant gaveUp0 ==> gaveUp
        invariant transientRetries - old(transientRetries) == attempts - old(attempts) - (|groups'| - |groups|)
      {
        assert fs[..i + 1] == fs[..i] + [fs[i]];
        if gaveUp {
          return;
        }
        var r;
        ghost var g;
        r, gaveUp, g := Try(Record(order[i], firstEv[order[i]]), groups', from);
        FoldGrow(env, groups', g);
        SettlesGrow(env, groups', g);
        groups' := groups' + [g];
      }
      assert fs[..|fs|] == fs;
    }

    /** Phases 2 and 3, each where its seam is installed. */
    method RunSessions(order: seq<string>, firstEv: map<string, Pending>, ghost fs: seq<Fold>, ghost groups: seq<Group>,
                       ghost from: nat, gaveUp0: bool)
      returns (gaveUp: bool, ghost groups': seq<Group>)
      requires Sound(env, waits, groups, from, attempts, gaveUp0) && OnlyWrites(groups) && Paid(env, groups, gaveUp0)
      requires Keeps(fs, order, firstEv)
      modifies this`attempts, this`transientRetries, this`transientGaveUp
      ensures Sound(env, waits, groups', from, attempts, gaveUp) && Phased(groups') && (gaveUp0 ==> gaveUp)
      ensures Paid(env, groups', gaveUp)
      ensures Inserts(env, groups') == Inserts(env, groups)
      ensures SessionsDone(groups', fs, gaveUp, hasRule, hasAggregator)
      ensures transientGaveUp - old(transientGaveUp) == if gaveUp && !gaveUp0 then 1 else 0
      ensures transientRetries - old(transientRetries) == attempts - old(attempts) - (|groups'| - |groups|)
    {
      gaveUp, groups' := gaveUp0, groups;
      OrderIs(fs, order, firstEv);
      if hasRule {
        gaveUp, groups' := RunRules(order, groups, from, gaveUp0);
      }
      if hasAggregator {
        gaveUp, groups' := RecordSessions(order, firstEv, fs, groups', from, gaveUp);
      }
    }

    /** One flush. */
    method Flush(batch: seq<Pending>) returns (gaveUp: bool, ghost groups: seq<Group>)
      modifies this`attempts, this`failed, this`flushCount, this`transientRetries, this`transientGaveUp, this`wroteLast,
               this`flushed, this`stored
      ensures Flushed(env, waits, batch, groups, old(attempts), attempts, gaveUp, failed - old(failed), wroteLast,
                      hasRule, hasAggregator)
      ensures transientGaveUp - old(transientGaveUp) == if gaveUp then 1 else 0
      ensures transientRetries - old(transientRetries) == attempts - old(attempts) - |groups|
      ensures flushCount == old(flushCount) + 1
      ensures flushed == old(flushed) + batch
      ensures stored - old(stored) == |Stored(Inserts(env, groups))| == |batch| - (failed - old(failed))
    {
      flushCount := flushCount + 1;
      ghost var from := attempts;
      var order, firstEv, wrote;
      order, firstEv, wrote, gaveUp, groups := WriteCalls(batch);
      ghost var ws := Inserts(env, groups);
      AccountsShort(batch, ws, gaveUp, wrote, failed - old(failed));
      gaveUp, groups := RunSessions(order, firstEv, FirstOfEach(Stored(ws)), groups, from, gaveUp);
      wroteLast, flushed, stored := wrote, flushed + batch, stored + |Stored(ws)|;
    }

    /**
     Run: batches by size or by quiet, and a last flush when the sink closes or the context is cancelled. What
     is left over is what a caller that stops feeding inputs has not had flushed yet.
     */
    method Run(inputs: seq<Input>) returns (leftover: seq<Pending>, ended: bool)
      requires flushed == [] && processed == stored == failed == 0
      modifies this
      ensures processed == stored + failed + |leftover|
      ensures flushed + leftover == Received(inputs) && |Received(inputs)| == processed
      ensures ended ==> leftover == []
      ensures leftover == [] || |leftover| < batchSize
      ensures inputs != [] && inputs[|inputs| - 1].Tick? ==> leftover == []
    {
      var batch: seq<Pending> := [];
      ended := false;
      for i := 0 to |inputs|
        invariant !ended
        invariant processed == stored + failed + |batch|
        invariant flushed + batch == Received(inputs[..i]) && processed == |Received(inputs[..i])|
        invariant forall k :: 0 <= k < i ==> !Ends(inputs[k])
        invariant batch == [] || |batch| < batchSize
        invariant i > 0 && inputs[i - 1].Tick? ==> batch == []
      {
        var input := inputs[i];
        ReceivedNext(inputs, i);
        GlueCalls(flushed, batch, Taken(input));
        batch := Take(input, batch);
        if Ends(input) {
          ReceivedEnds(inputs, i);
          return batch, true;
        }
      }
      assert inputs[..|inputs|] == inputs;
      leftover := batch;
    }

    /** One turn of the select. */
    method Take(input: Input, batch: seq<Pending>) returns (batch': seq<Pending>)
      modifies this
      ensures flushed + batch' == old(flushed) + (batch + Taken(input))
      ensures processed == old(processed) + |Taken(input)|
      ensures stored + failed + |batch'| == old(stored) + old(failed) + |batch| + |Taken(input)|
      ensures Ends(input) || input.Tick? ==> batch' == []
      ensures input.Call? ==> batch' == [] || |batch'| < batchSize
    {
      match input
      case Call(call) =>
        batch' := batch + [call];
        processed := processed + 1;
        if |batch'| >= batchSize {
          batch' := FlushIfAny(batch');
        }
      case Tick =>
        assert batch + [] == batch;
        batch' := FlushIfAny(batch);
      case Closed =>
        assert batch + [] == batch;
        batch' := FlushIfAny(batch);
      case Cancelled(queued, inTime) =>
        batch' := DrainRemaining(batch, queued, inTime);
        batch' := FlushIfAny(batch');
    }

    /** The closure in Run: flushes a batch that is not empty, and empties it. */
    method FlushIfAny(batch: seq<Pending>) returns (rest: seq<Pending>)
      modifies this`attempts, this`failed, this`flushCount, this`transientRetries, this`transientGaveUp, this`wroteLast,
               this`flushed, this`stored
      ensures rest == [] && flushed == old(flushed) + batch && stored + failed == old(stored) + old(failed) + |batch|
    {
      if |batch| > 0 {
        var gaveUp;
        ghost var groups;
        gaveUp, groups := Flush(batch);
      }
      rest := [];
    }

    /** drainRemaining: what is already queued, until the grace period ends. */
    method DrainRemaining(batch: seq<Pending>, queued: seq<Pending>, inTime: nat) returns (batch': seq<Pending>)
      modifies this`processed, this`drained
      ensures batch' == batch + Drained(queued, inTime)
      ensures processed == old(processed) + |Drained(queued, inTime)| && drained == old(drained) + |Drained(queued, inTime)|
    {
      batch' := batch;
      var i := 0;
      while i < inTime
        invariant i <= |queued| && i <= inTime && batch' == batch + queued[..i]
        invariant processed == old(processed) + i && drained == old(drained) + i
      {
        if i == |queued| {
          return;
        }
        batch' := batch' + [queued[i]];
        processed, drained := processed + 1, drained + 1;
        i := i + 1;
      }
    }
  }

  // ---------- what the loop receives ----------

  /** What Run's select sees: `inTime` is how many queued calls the shutdown grace leaves time for. */
  datatype Input = Call(call: Pending) | Tick | Closed | Cancelled(queued: seq<Pending>, inTime: nat)

  predicate Ends(input: Input) {
    input.Closed? || input.Cancelled?
  }

  function Drained(queued: seq<Pending>, inTime: nat): seq<Pending> {
    if inTime < |queued| then queued[..inTime] else queued
  }

  function Taken(input: Input): seq<Pending> {
    match input
    case Call(call) => [call]
    case Cancelled(queued, inTime) => Drained(queued, inTime)
    case _ => []
  }

  /** The calls taken off the sink up to the first input that ends the loop. */
  function Received(inputs: seq<Input>): seq<Pending> {
    if inputs == [] then []
    else
      var init := inputs[..|inputs| - 1];
      if exists k :: 0 <= k < |init| && Ends(init[k]) then Received(init)
      else Received(init) + Taken(inputs[|inputs| - 1])
  }

  lemma {:induction false} ReceivedNext(inputs: seq<Input>, i: nat)
    requires i < |inputs| && forall k :: 0 <= k < i ==> !Ends(inputs[k])
    ensures Received(inputs[..i + 1]) == Received(inputs[..i]) + Taken(inputs[i])
  {
    assert inputs[..i + 1][..i] == inputs[..i];
  }

  lemma {:induction false} ReceivedEnds(inputs: seq<Input>, i: nat)
    requires i < |inputs| && Ends(inputs[i])
    ensures Received(inputs) == Received(inputs[..i + 1])
    decreases |inputs|
  {
    if i + 1 < |inputs| {
      var init := inputs[..|inputs| - 1];
      assert Ends(init[i]);
      ReceivedEnds(init, i);
      assert init[..i + 1] == inputs[..i + 1];
    } else {
      assert inputs[..i + 1] == inputs;
    }
  }

  lemma GlueCalls(a: seq<Pending>, b: seq<Pending>, c: seq<Pending>)
    ensures (a + b) + c == a + (b + c)
  {
  }

  /** Every call of the batch was asked of the store in order until the flush gave up, and is stored or counted failed. */
  ghost predicate Accounts(batch: seq<Pending>, ws: seq<Written>, gaveUp: bool, wrote: bool, failures: int) {
    && CallsOf(ws) <= batch && (!gaveUp ==> CallsOf(ws) == batch)
    && failures + |Stored(ws)| == |batch|
    && (wrote <==> Stored(ws) != [])
  }

  lemma AccountsShort(batch: seq<Pending>, ws: seq<Written>, gaveUp: bool, wrote: bool, failures: int)
    requires Accounts(batch, ws, gaveUp, wrote, failures)
    ensures Accounts(batch, ws, |ws| < |batch|, wrote, failures) && (|ws| < |batch| ==> gaveUp)
  {
  }

  lemma AccountsNone(batch: seq<Pending>)
    ensures Accounts(batch[..0], [], false, false, 0)
  {
  }

  lemma AccountsFailed(batch: seq<Pending>, i: nat, ws: seq<Written>, wrote: bool, failures: int)
    requires i < |batch| && Accounts(batch[..i], ws, true, wrote, failures)
    ensures Accounts(batch[..i + 1], ws, true, wrote, failures + 1)
  {
    assert batch[..i + 1] == batch[..i] + [batch[i]];
  }

  lemma AccountsAsked(batch: seq<Pending>, i: nat, ws: seq<Written>, wrote: bool, failures: int, w: Written, gaveUp: bool)
    requires i < |batch| && w.call == batch[i] && Accounts(batch[..i], ws, false, wrote, failures)
    ensures Accounts(batch[..i + 1], ws + [w], gaveUp, wrote || w.reply.outcome == Done,
                     if w.reply.outcome == Done then failures else failures + 1)
  {
    StoredNext(ws, w);
    assert CallsOf(ws + [w]) == CallsOf(ws) + [w.call];
    assert batch[..i + 1] == batch[..i] + [batch[i]];
  }

  ghost predicate SameWrites(env: Env, groups: seq<Group>, groups': seq<Group>) {
    Inserts(env, groups') == Inserts(env, groups) && Folds(groups') == Folds(groups)
  }

  lemma RuleGrow(env: Env, groups: seq<Group>, g: Group)
    requires UpTo(groups, 1) && (g.op.Rows? || g.op.WarnRow?)
    ensures UpTo(groups + [g], 1) && SameWrites(env, groups, groups + [g])
    ensures SessionPasses(groups + [g])
         == if g.op.Rows? then SessionPasses(groups) + [g.op.session] else SessionPasses(groups)
  {
    PhaseGrow(groups, g, 1);
    assert (groups + [g])[..|groups|] == groups;
  }

  lemma FoldGrow(env: Env, groups: seq<Group>, g: Group)
    requires UpTo(groups, 2) && g.op.Record?
    ensures UpTo(groups + [g], 2) && Inserts(env, groups + [g]) == Inserts(env, groups)
    ensures SessionPasses(groups + [g]) == SessionPasses(groups)
    ensures Folds(groups + [g]) == Folds(groups) + [Fold(g.op.session, g.op.first)]
  {
    PhaseGrow(groups, g, 2);
    assert (groups + [g])[..|groups|] == groups;
  }

  /** What a flush did, from attempt `from` to attempt `to`. */
  ghost predicate Flushed(env: Env, waits: nat, batch: seq<Pending>, groups: seq<Group>, from: nat, to: nat, gaveUp: bool,
                          failures: int, wrote: bool, hasRule: bool, hasAggregator: bool)
  {
    var ws := Inserts(env, groups);
    var fs := FirstOfEach(Stored(ws));
    && Sound(env, waits, groups, from, to, gaveUp) && Phased(groups) && Paid(env, groups, gaveUp)
    && Accounts(batch, ws, |ws| < |batch|, wrote, failures) && (|ws| < |batch| ==> gaveUp)
    && SessionsDone(groups, fs, gaveUp, hasRule, hasAggregator)
  }

  /** The session passes and the folds, in order of first appearance, as far as the flush got. */
  ghost predicate SessionsDone(groups: seq<Group>, fs: seq<Fold>, gaveUp: bool, hasRule: bool, hasAggregator: bool) {
    && SessionPasses(groups) <= SessionsOf(fs) && Folds(groups) <= fs
    && (!gaveUp ==> SessionPasses(groups) == (if hasRule then SessionsOf(fs) else []))
    && (!gaveUp ==> Folds(groups) == (if hasAggregator then fs else []))
  }

  // ---------- bounds ----------

  lemma {:induction false} ChainBound(env: Env, waits: nat, groups: seq<Group>, from: nat, to: nat)
    requires Chain(env, waits, groups, from, to)
    ensures to - from <= |groups| * (waits + 1)
    decreases |groups|
  {
    if groups != [] {
      var n := |groups| - 1;
      ChainBound(env, waits, groups[..n], from, groups[n].at);
      assert |groups| * (waits + 1) == n * (waits + 1) + (waits + 1);
    }
  }

  lemma {:induction false} ChainFrom(env: Env, waits: nat, groups: seq<Group>, from: nat, to: nat, i: nat)
    requires Chain(env, waits, groups, from, to) && i < |groups|
    ensures from <= groups[i].at && groups[i].tries >= 1
    decreases |groups|
  {
    var n := |groups| - 1;
    if i < n {
      ChainFrom(env, waits, groups[..n], from, groups[n].at, i);
    } else if n > 0 {
      ChainFrom(env, waits, groups[..n], from, groups[n].at, n - 1);
      ChainGrows(env, waits, groups[..n], from, groups[n].at);
    }
  }

  lemma {:induction false} ChainGrows(env: Env, waits: nat, groups: seq<Group>, from: nat, to: nat)
    requires Chain(env, waits, groups, from, to)
    ensures from <= to
    decreases |groups|
  {
    if groups != [] {
      ChainGrows(env, waits, groups[..|groups| - 1], from, groups[|groups| - 1].at);
    }
  }

  /** While the store is out, a flush asks it one operation's worth of attempts and fails its whole batch. */
  lemma OutageCostsOneSchedule(env: Env, waits: nat, batch: seq<Pending>, groups: seq<Group>, from: nat, to: nat,
                               gaveUp: bool, failures: int, wrote: bool, hasRule: bool, hasAggregator: bool)
    requires Flushed(env, waits, batch, groups, from, to, gaveUp, failures, wrote, hasRule, hasAggregator)
    requires forall k: nat :: k >= from ==> env.answer(k).outcome == Transient
    ensures to - from <= waits + 1 && failures == |batch| && !wrote
  {
    forall i | 0 <= i < |groups|
      ensures Exhausted(env, groups[i]) && i == |groups| - 1
    {
      ChainFrom(env, waits, groups, from, to, i);
    }
    assert |groups| > 0 ==> Exhausted(env, groups[0]);
    ChainBound(env, waits, groups, from, to);
    NoneStored(env, groups);
  }

  lemma {:induction false} NoneStored(env: Env, groups: seq<Group>)
    requires forall i :: 0 <= i < |groups| ==> Exhausted(env, groups[i])
    ensures Stored(Inserts(env, groups)) == []
    decreases |groups|
  {
    if groups != [] {
      var init, g := groups[..|groups| - 1], groups[|groups| - 1];
      NoneStored(env, init);
      if g.op.Insert? {
        StoredNext(Inserts(env, init), Written(g.op.call, Last(env, g)));
      }
    }
  }

  /** A store that never answers with a transient error is asked once per operation, and every call is asked. */
  lemma NoOutageNoRetries(env: Env, waits: nat, batch: seq<Pending>, groups: seq<Group>, from: nat, to: nat,
                          gaveUp: bool, failures: int, wrote: bool, hasRule: bool, hasAggregator: bool)
    requires Flushed(env, waits, batch, groups, from, to, gaveUp, failures, wrote, hasRule, hasAggregator)
    requires forall k: nat :: env.answer(k).outcome != Transient
    ensures !gaveUp && CallsOf(Inserts(env, groups)) == batch && to - from == |groups|
  {
    OneTryEach(env, waits, groups, from, to);
  }

  lemma {:induction false} OneTryEach(env: Env, waits: nat, groups: seq<Group>, from: nat, to: nat)
    requires Chain(env, waits, groups, from, to) && forall k: nat :: env.answer(k).outcome != Transient
    ensures to - from == |groups| && !GaveUp(env, groups)
    decreases |groups|
  {
    if groups != [] {
      OneTryEach(env, waits, groups[..|groups| - 1], from, groups[|groups| - 1].at);
    }
  }
}
