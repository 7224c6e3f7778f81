/**
 Archiver.Run among other writers. Between the loop's page queries anything may happen: deliveries, purges, other
 archivers, collectors, restores, this archiver's own four steps interleaved with all of them, or its pause.
 */
module ArchiverTurns {
  import opened BlobCodec
  import opened ArchiveDb
  import opened Protocol
  import opened StoreClass
  import opened ArchiverRun

  /** The keyset cursor of the candidate query. */
  datatype Cursor = Cursor(startedAt: int, id: int)

  /** What one run is given. */
  datatype Loop = Loop(cutoff: int, batchRows: int, batchBytes: int) {
    function Page(db: Db, at: Cursor): seq<Candidate> {
      CandidatesKeyed(db, cutoff);
      Limit(Ordered(PastCursor(Candidates(db, cutoff), at.startedAt, at.id)), batchRows)
    }

    /** What takeBatch answers on a page. */
    predicate Takes(page: seq<Candidate>, batch: seq<Candidate>) {
      && batch <= page && BatchOk(batch, batchBytes)
      && (|batch| < |page| ==> !BatchOk(page[..|batch| + 1], batchBytes))
    }
  }

  /** One turn of the loop: the state its query reads, the batch taken, and all that happens up to the next query. */
  datatype Turn = Turn(before: Sys, batch: seq<Candidate>, during: seq<Action>) {
    function Last(): Candidate
      requires batch != []
    {
      batch[|batch| - 1]
    }
  }

  /** Where the cursor stands before turn `n`. */
  function CursorOf(turns: seq<Turn>, n: nat): Cursor
    requires n <= |turns|
  {
    if n == 0 || turns[n - 1].batch == [] then Cursor(MIN_INT64, 0)
    else Cursor(turns[n - 1].Last().startedAt, turns[n - 1].Last().id)
  }

  /** The state the query of turn `n` reads; after the last turn, the one the final query reads. */
  function StateAt(turns: seq<Turn>, end: Sys, n: nat): Sys
    requires n <= |turns|
  {
    if n < |turns| then turns[n].before else end
  }

  /** What the loop itself does: each batch is taken from the page its query returns. */
  predicate Paged(l: Loop, turns: seq<Turn>) {
    forall n :: 0 <= n < |turns| ==> TakesAt(l, turns, n)
  }

  predicate TakesAt(l: Loop, turns: seq<Turn>, n: nat)
    requires n < |turns|
  {
    l.Takes(l.Page(turns[n].before.db, CursorOf(turns, n)), turns[n].batch)
  }

  /** And what happens around it: from each query to the next, some run of the protocol. */
  predicate Linked(z: Compressor, turns: seq<Turn>, end: Sys) {
    forall n :: 0 <= n < |turns| ==> Follows(z, turns, end, n)
  }

  predicate Follows(z: Compressor, turns: seq<Turn>, end: Sys, n: nat)
    requires n < |turns|
  {
    StateAt(turns, end, n + 1) == Run(z, turns[n].before, turns[n].during)
  }

  /** The run comes to an end: its next page is empty. */
  predicate Finished(l: Loop, turns: seq<Turn>, end: Sys) {
    l.Page(end.db, CursorOf(turns, |turns|)) == []
  }

  // ---------- one page ----------

  lemma PageIsCandidates(l: Loop, db: Db, at: Cursor, i: nat)
    requires i < |l.Page(db, at)|
    ensures l.Page(db, at)[i] in Candidates(db, l.cutoff) && Past(l.Page(db, at)[i], at.startedAt, at.id)
    ensures forall j :: i < j < |l.Page(db, at)| ==> Before(l.Page(db, at)[i], l.Page(db, at)[j])
  {
    CandidatesKeyed(db, l.cutoff);
    var past := PastCursor(Candidates(db, l.cutoff), at.startedAt, at.id);
    assert Ordered(past)[i] in past;
  }

  /** A candidate past the cursor that the batch leaves out comes after the whole batch. */
  lemma LeftForLater(l: Loop, db: Db, at: Cursor, batch: seq<Candidate>, c: Candidate)
    requires l.Takes(l.Page(db, at), batch) && c !in batch
    requires c in Candidates(db, l.cutoff) && Past(c, at.startedAt, at.id)
    ensures Before(batch[|batch| - 1], c)
  {
    CandidatesKeyed(db, l.cutoff);
    var all := Ordered(PastCursor(Candidates(db, l.cutoff), at.startedAt, at.id));
    assert c in all;
    var i :| 0 <= i < |all| && all[i] == c;
    assert forall k :: 0 <= k < |batch| ==> batch[k] == all[k];
    assert i >= |batch|;
  }

  lemma BatchInPage(l: Loop, db: Db, at: Cursor, batch: seq<Candidate>, i: nat)
    requires l.Takes(l.Page(db, at), batch) && i < |batch|
    ensures batch[i] in Candidates(db, l.cutoff) && Past(batch[i], at.startedAt, at.id)
    ensures i == |batch| - 1 || Before(batch[i], batch[|batch| - 1])
  {
    PageIsCandidates(l, db, at, i);
  }

  lemma BatchIsCandidates(l: Loop, turns: seq<Turn>, n: nat, c: Candidate)
    requires n < |turns| && TakesAt(l, turns, n) && c in turns[n].batch
    ensures var db := turns[n].before.db;
            && c.id in db.events && Eligible(db, l.cutoff, c.id) && c == CandidateOf(db.events[c.id], c.id)
    ensures Past(c, CursorOf(turns, n).startedAt, CursorOf(turns, n).id)
    ensures c == turns[n].Last() || Before(c, turns[n].Last())
  {
    var i :| 0 <= i < |turns[n].batch| && turns[n].batch[i] == c;
    BatchInPage(l, turns[n].before.db, CursorOf(turns, n), turns[n].batch, i);
    IsCandidate(turns[n].before.db, l.cutoff, c);
  }

  lemma BatchNotEmpty(l: Loop, turns: seq<Turn>, n: nat)
    requires Paged(l, turns) && n < |turns|
    ensures turns[n].batch != [] && turns[n].Last() in turns[n].batch
  {
    assert TakesAt(l, turns, n);
  }

  lemma BatchPastCursor(l: Loop, turns: seq<Turn>, n: nat, c: Candidate)
    requires Paged(l, turns) && n < |turns| && c in turns[n].batch
    ensures Past(c, CursorOf(turns, n).startedAt, CursorOf(turns, n).id)
  {
    assert TakesAt(l, turns, n);
    BatchIsCandidates(l, turns, n, c);
  }

  // ---------- keys increase ----------

  lemma {:induction false} LastBefore(l: Loop, turns: seq<Turn>, m: nat, n: nat, c: Candidate)
    requires Paged(l, turns) && m < n < |turns| && c in turns[n].batch
    ensures turns[m].batch != [] && Before(turns[m].Last(), c)
    decreases n
  {
    BatchNotEmpty(l, turns, m);
    BatchNotEmpty(l, turns, n - 1);
    BatchPastCursor(l, turns, n, c);
    if m < n - 1 {
      LastBefore(l, turns, m, n - 1, turns[n - 1].Last());
    }
  }

  /** Whatever others do meanwhile, every key of a later batch is above every key of an earlier one. */
  lemma KeysIncrease(l: Loop, turns: seq<Turn>, m: nat, n: nat, a: Candidate, b: Candidate)
    requires Paged(l, turns) && m < n < |turns| && a in turns[m].batch && b in turns[n].batch
    ensures Before(a, b)
  {
    assert TakesAt(l, turns, m);
    BatchIsCandidates(l, turns, m, a);
    LastBefore(l, turns, m, n, b);
  }

  // ---------- an id keeps its key ----------

  /** The id was given out, to an event that started then, whether or not that event is still there. */
  predicate Keeps(db: Db, id: Id, startedAt: int) {
    id < db.nextId && (id in db.events ==> db.events[id].fixed.startedAt == startedAt)
  }

  predicate IdsGiven(db: Db) {
    forall id :: id in db.events ==> id < db.nextId
  }

  lemma KeepsStep(z: Compressor, s: Sys, a: Action, id: Id, startedAt: int)
    requires Keeps(s.db, id, startedAt)
    ensures Keeps(Step(z, s, a).db, id, startedAt)
  {
  }

  lemma IdsGivenStep(z: Compressor, s: Sys, a: Action)
    requires IdsGiven(s.db)
    ensures IdsGiven(Step(z, s, a).db)
    ensures s.db.nextId <= Step(z, s, a).db.nextId <= s.db.nextId + if a.Deliver? then 1 else 0
  {
  }

  lemma {:induction false} KeepsRun(z: Compressor, s: Sys, more: seq<Action>, id: Id, startedAt: int)
    requires Keeps(s.db, id, startedAt)
    ensures Keeps(Run(z, s, more).db, id, startedAt)
    decreases |more|
  {
    if more != [] {
      KeepsRun(z, s, more[..|more| - 1], id, startedAt);
      KeepsStep(z, Run(z, s, more[..|more| - 1]), more[|more| - 1], id, startedAt);
    }
  }

  function DeliveriesIn(run: seq<Action>): nat {
    if run == [] then 0 else DeliveriesIn(run[..|run| - 1]) + if run[|run| - 1].Deliver? then 1 else 0
  }

  lemma {:induction false} IdsGivenRun(z: Compressor, s: Sys, more: seq<Action>)
    requires IdsGiven(s.db)
    ensures IdsGiven(Run(z, s, more).db)
    ensures s.db.nextId <= Run(z, s, more).db.nextId <= s.db.nextId + DeliveriesIn(more)
    decreases |more|
  {
    if more != [] {
      IdsGivenRun(z, s, more[..|more| - 1]);
      IdsGivenStep(z, Run(z, s, more[..|more| - 1]), more[|more| - 1]);
    }
  }

  lemma KeepsTurn(z: Compressor, turns: seq<Turn>, end: Sys, n: nat, id: Id, startedAt: int)
    requires Linked(z, turns, end) && n < |turns| && Keeps(StateAt(turns, end, n).db, id, startedAt)
    ensures Keeps(StateAt(turns, end, n + 1).db, id, startedAt)
  {
    assert Follows(z, turns, end, n);
    KeepsRun(z, turns[n].before, turns[n].during, id, startedAt);
  }

  lemma {:induction false} KeepsTurns(z: Compressor, turns: seq<Turn>, end: Sys, m: nat, n: nat, id: Id, startedAt: int)
    requires Linked(z, turns, end) && m <= n <= |turns|
    requires Keeps(StateAt(turns, end, m).db, id, startedAt)
    ensures Keeps(StateAt(turns, end, n).db, id, startedAt)
    decreases n
  {
    if m < n {
      KeepsTurns(z, turns, end, m, n - 1, id, startedAt);
      KeepsTurn(z, turns, end, n - 1, id, startedAt);
    }
  }

  function Delivered(turns: seq<Turn>, n: nat): nat
    requires n <= |turns|
  {
    if n == 0 then 0 else Delivered(turns, n - 1) + DeliveriesIn(turns[n - 1].during)
  }

  lemma {:induction false} IdsGivenTurns(z: Compressor, turns: seq<Turn>, end: Sys, n: nat)
    requires Linked(z, turns, end) && n <= |turns| && IdsGiven(StateAt(turns, end, 0).db)
    ensures IdsGiven(StateAt(turns, end, n).db)
    ensures StateAt(turns, end, n).db.nextId <= StateAt(turns, end, 0).db.nextId + Delivered(turns, n)
    decreases n
  {
    if n > 0 {
      IdsGivenTurns(z, turns, end, n - 1);
      assert Follows(z, turns, end, n - 1);
      IdsGivenRun(z, turns[n - 1].before, turns[n - 1].during);
    }
  }

  lemma KeyOfTaken(z: Compressor, l: Loop, turns: seq<Turn>, end: Sys, n: nat, c: Candidate)
    requires Paged(l, turns) && Linked(z, turns, end) && n < |turns| && c in turns[n].batch && IdsGiven(StateAt(turns, end, 0).db)
    ensures Keeps(StateAt(turns, end, n).db, c.id, c.startedAt)
    ensures c.id < StateAt(turns, end, 0).db.nextId + Delivered(turns, n)
  {
    IdsGivenTurns(z, turns, end, n);
    assert TakesAt(l, turns, n);
    BatchIsCandidates(l, turns, n, c);
  }

  // ---------- each row once ----------

  /** No event is in two batches, nor twice in one. */
  lemma TakenOnce(z: Compressor, l: Loop, turns: seq<Turn>, end: Sys, m: nat, i: nat, n: nat, j: nat)
    requires Paged(l, turns) && Linked(z, turns, end) && IdsGiven(StateAt(turns, end, 0).db) && m <= n < |turns|
    requires i < |turns[m].batch| && j < |turns[n].batch| && turns[m].batch[i].id == turns[n].batch[j].id
    ensures m == n && i == j
  {
    var a, b := turns[m].batch[i], turns[n].batch[j];
    assert TakesAt(l, turns, m) && TakesAt(l, turns, n);
    if m < n {
      KeysIncrease(l, turns, m, n, a, b);
      KeyOfTaken(z, l, turns, end, m, a);
      KeepsTurns(z, turns, end, m, n, a.id, a.startedAt);
      BatchIsCandidates(l, turns, n, b);
      assert false;
    } else {
      BatchIsCandidates(l, turns, n, a);
      BatchIsCandidates(l, turns, n, b);
      SamePlace(l, turns[n].before.db, CursorOf(turns, n), i, j);
    }
  }

  lemma SamePlace(l: Loop, db: Db, at: Cursor, i: nat, j: nat)
    requires i < |l.Page(db, at)| && j < |l.Page(db, at)| && l.Page(db, at)[i] == l.Page(db, at)[j]
    ensures i == j
  {
    PageIsCandidates(l, db, at, i);
    PageIsCandidates(l, db, at, j);
  }

  // ---------- no row missed ----------

  /** The turn whose batch takes the cursor over a row's key takes that row if and only if it finds it eligible. */
  lemma TakenExactly(l: Loop, turns: seq<Turn>, n: nat, id: Id)
    requires Paged(l, turns) && n < |turns| && id in turns[n].before.db.events
    requires var c, at, next := CandidateOf(turns[n].before.db.events[id], id), CursorOf(turns, n), CursorOf(turns, n + 1);
             Past(c, at.startedAt, at.id) && !Past(c, next.startedAt, next.id)
    ensures CandidateOf(turns[n].before.db.events[id], id) in turns[n].batch <==> Eligible(turns[n].before.db, l.cutoff, id)
  {
    var db, at := turns[n].before.db, CursorOf(turns, n);
    var c := CandidateOf(db.events[id], id);
    assert TakesAt(l, turns, n);
    IsCandidate(db, l.cutoff, c);
    if c in turns[n].batch {
      BatchIsCandidates(l, turns, n, c);
    } else if Eligible(db, l.cutoff, id) {
      LeftForLater(l, db, at, turns[n].batch, c);
    }
  }

  predicate TakenBy(turns: seq<Turn>, n: nat, id: Id)
    requires n <= |turns|
  {
    exists m, i :: 0 <= m < n && 0 <= i < |turns[m].batch| && turns[m].batch[i].id == id
  }

  predicate EligibleUntilTaken(l: Loop, turns: seq<Turn>, end: Sys, id: Id) {
    forall n :: 0 <= n <= |turns| ==> TakenOrEligible(l, turns, end, id, n)
  }

  predicate TakenOrEligible(l: Loop, turns: seq<Turn>, end: Sys, id: Id, n: nat)
    requires n <= |turns|
  {
    TakenBy(turns, n, id) || Eligible(StateAt(turns, end, n).db, l.cutoff, id)
  }

  lemma NotInBatch(turns: seq<Turn>, m: nat, n: nat, c: Candidate)
    requires m < n <= |turns| && !TakenBy(turns, n, c.id)
    ensures c !in turns[m].batch
  {
    assert forall i :: 0 <= i < |turns[m].batch| ==> turns[m].batch[i].id != c.id;
  }

  lemma PageNotEmpty(l: Loop, db: Db, at: Cursor, c: Candidate)
    requires c in Candidates(db, l.cutoff) && Past(c, at.startedAt, at.id) && l.batchRows != 0
    ensures l.Page(db, at) != []
  {
    CandidatesKeyed(db, l.cutoff);
    assert c in Ordered(PastCursor(Candidates(db, l.cutoff), at.startedAt, at.id));
  }

  lemma {:induction false} NotPassed(z: Compressor, l: Loop, turns: seq<Turn>, end: Sys, n: nat, id: Id, startedAt: int)
    requires Paged(l, turns) && Linked(z, turns, end) && n <= |turns| && EligibleUntilTaken(l, turns, end, id)
    requires Keeps(StateAt(turns, end, 0).db, id, startedAt) && id >= 1 && startedAt >= MIN_INT64 && !TakenBy(turns, n, id)
    ensures Past(Candidate(id, startedAt, 0), CursorOf(turns, n).startedAt, CursorOf(turns, n).id)
    decreases n
  {
    if n > 0 {
      assert !TakenBy(turns, n - 1, id) && TakenOrEligible(l, turns, end, id, n - 1);
      NotPassed(z, l, turns, end, n - 1, id, startedAt);
      KeepsTurns(z, turns, end, 0, n - 1, id, startedAt);
      NotPassedNow(l, turns, n, id);
    }
  }

  lemma LeftByTurn(l: Loop, turns: seq<Turn>, n: nat, c: Candidate)
    requires Paged(l, turns) && n < |turns| && c !in turns[n].batch
    requires c in Candidates(turns[n].before.db, l.cutoff) && Past(c, CursorOf(turns, n).startedAt, CursorOf(turns, n).id)
    ensures Past(c, CursorOf(turns, n + 1).startedAt, CursorOf(turns, n + 1).id)
  {
    assert TakesAt(l, turns, n);
    LeftForLater(l, turns[n].before.db, CursorOf(turns, n), turns[n].batch, c);
  }

  lemma NotPassedNow(l: Loop, turns: seq<Turn>, n: nat, id: Id)
    requires Paged(l, turns) && 0 < n <= |turns| && !TakenBy(turns, n, id)
    requires var db, at := turns[n - 1].before.db, CursorOf(turns, n - 1);
             Eligible(db, l.cutoff, id) && Past(CandidateOf(db.events[id], id), at.startedAt, at.id)
    ensures var db, at := turns[n - 1].before.db, CursorOf(turns, n);
            Past(CandidateOf(db.events[id], id), at.startedAt, at.id)
  {
    var db := turns[n - 1].before.db;
    var c := CandidateOf(db.events[id], id);
    IsCandidate(db, l.cutoff, c);
    NotInBatch(turns, n - 1, n, c);
    LeftByTurn(l, turns, n - 1, c);
  }

  /** A row eligible at every query until a batch takes it is taken by the time the run finishes. */
  lemma EveryEligibleRowTaken(z: Compressor, l: Loop, turns: seq<Turn>, end: Sys, id: Id)
    requires Paged(l, turns) && Linked(z, turns, end) && Finished(l, turns, end) && l.batchRows != 0
    requires EligibleUntilTaken(l, turns, end, id) && Rowids(StateAt(turns, end, 0).db) && IdsGiven(StateAt(turns, end, 0).db)
    ensures TakenBy(turns, |turns|, id)
  {
    var n := |turns|;
    assert TakenOrEligible(l, turns, end, id, 0) && TakenOrEligible(l, turns, end, id, n);
    var startedAt := StateAt(turns, end, 0).db.events[id].fixed.startedAt;
    if !TakenBy(turns, n, id) {
      NotPassed(z, l, turns, end, n, id, startedAt);
      KeepsTurns(z, turns, end, 0, n, id, startedAt);
      var db, at := StateAt(turns, end, n).db, CursorOf(turns, n);
      var c := CandidateOf(db.events[id], id);
      IsCandidate(db, l.cutoff, c);
      PageNotEmpty(l, db, at, c);
    }
  }

  // ---------- the run ends ----------

  function FirstIds(turns: seq<Turn>): seq<Id>
    requires forall t :: t in turns ==> t.batch != []
  {
    seq(|turns|, n requires 0 <= n < |turns| => turns[n].batch[0].id)
  }

  lemma {:induction false} DistinctBelow(ids: seq<Id>, bound: nat)
    requires Distinct(ids) && forall i :: 0 <= i < |ids| ==> ids[i] < bound
    ensures |ids| <= bound
    decreases bound
  {
    if ids != [] {
      assert ids[0] < bound;
      if i :| 0 <= i < |ids| && ids[i] == bound - 1 {
        DistinctBelow(ids[..i] + ids[i + 1..], bound - 1);
      } else {
        DistinctBelow(ids, bound - 1);
      }
    }
  }

  lemma {:induction false} DeliveredGrows(turns: seq<Turn>, m: nat, n: nat)
    requires m <= n <= |turns|
    ensures Delivered(turns, m) <= Delivered(turns, n)
    decreases n
  {
    if m < n {
      DeliveredGrows(turns, m, n - 1);
    }
  }

  /** A run has at most one turn for each event there was or that is delivered meanwhile. */
  lemma TurnsBounded(z: Compressor, l: Loop, turns: seq<Turn>, end: Sys)
    requires Paged(l, turns) && Linked(z, turns, end) && IdsGiven(StateAt(turns, end, 0).db)
    ensures |turns| <= StateAt(turns, end, 0).db.nextId + Delivered(turns, |turns|)
  {
    forall n | 0 <= n < |turns|
      ensures turns[n].batch != [] && turns[n].batch[0].id < StateAt(turns, end, 0).db.nextId + Delivered(turns, |turns|)
    {
      assert TakesAt(l, turns, n);
      KeyOfTaken(z, l, turns, end, n, turns[n].batch[0]);
      DeliveredGrows(turns, n, |turns|);
    }
    var ids := FirstIds(turns);
    forall m, n | 0 <= m < n < |ids|
      ensures ids[m] != ids[n]
    {
      if ids[m] == ids[n] {
        TakenOnce(z, l, turns, end, m, 0, n, 0);
      }
    }
    DistinctBelow(ids, StateAt(turns, end, 0).db.nextId + Delivered(turns, |turns|));
  }

  // ---------- each batch is a batch of the protocol ----------

  /** In the state it is taken in, a batch can be chosen: all of it candidates, of one day. */
  lemma BatchCanBeChosen(l: Loop, turns: seq<Turn>, n: nat)
    requires Paged(l, turns) && n < |turns|
    ensures var ids := IdsOf(turns[n].batch);
            && ids != [] && turns[n].batch != [] && Distinct(ids)
            && ChoosesFrom(turns[n].before.db, DayOf(turns[n].batch[0].startedAt), IdSet(ids))
  {
    assert TakesAt(l, turns, n);
    var batch := turns[n].batch;
    forall i | 0 <= i < |batch|
      ensures var db := turns[n].before.db;
              && batch[i].id in db.events && Archivable(db, batch[i].id)
              && batch[i] == CandidateOf(db.events[batch[i].id], batch[i].id)
    {
      BatchIsCandidates(l, turns, n, batch[i]);
    }
    var ids := IdsOf(batch);
    forall i, j | 0 <= i < j < |ids|
      ensures ids[i] != ids[j]
    {
      if ids[i] == ids[j] {
        SamePlace(l, turns[n].before.db, CursorOf(turns, n), i, j);
      }
    }
  }
}
