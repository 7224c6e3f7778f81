/**
 Archiver.Run: keyset pages of candidates, cut into single-day batches, each moved by the four steps.
 On a store nobody else touches, one run is a run of the protocol's state machine that leaves nothing eligible.
 */
module ArchiverRun {
  import opened Prelude
  import opened Events
  import opened BlobCodec
  import opened ArchiveDb
  import opened Protocol
  import opened ProtocolProofs
  import opened ProtocolTheorems
  import opened StoreClass

  const MIN_INT64: int := -9223372036854775808

  // ---------- candidates ----------

  datatype Candidate = Candidate(id: Id, startedAt: int, size: nat)

  /** ORDER BY started_at ASC, id ASC. */
  predicate Before(a: Candidate, b: Candidate) {
    a.startedAt < b.startedAt || (a.startedAt == b.startedAt && a.id < b.id)
  }

  predicate Eligible(db: Db, cutoff: int, id: Id) {
    Archivable(db, id) && db.events[id].fixed.startedAt < cutoff
  }

  function Length(b: Bodies, c: Col): nat {
    if c in b then |b[c]| else 0
  }

  function CandidateOf(e: Event, id: Id): Candidate {
    Candidate(id, e.fixed.startedAt, Length(e.bodies, Req) + Length(e.bodies, Resp) + Length(e.bodies, Transcript))
  }

  function Candidates(db: Db, cutoff: int): set<Candidate> {
    set id | id in db.events && Eligible(db, cutoff, id) :: CandidateOf(db.events[id], id)
  }

  /** The keyset condition of the candidate query. */
  predicate Past(c: Candidate, lastStarted: int, lastId: int) {
    c.startedAt >= lastStarted && (c.startedAt > lastStarted || c.id > lastId)
  }

  function PastCursor(cs: set<Candidate>, lastStarted: int, lastId: int): set<Candidate> {
    set c | c in cs && Past(c, lastStarted, lastId)
  }

  /** LIMIT n; SQLite reads a negative limit as none. */
  function Limit(cs: seq<Candidate>, n: int): seq<Candidate> {
    if 0 <= n < |cs| then cs[..n] else cs
  }

  // ---------- ordered enumeration ----------

  predicate Keyed(cs: set<Candidate>) {
    forall a, b :: a in cs && b in cs && a != b ==> Before(a, b) || Before(b, a)
  }

  predicate IsLeast(c: Candidate, cs: set<Candidate>) {
    c in cs && forall d :: d in cs && d != c ==> Before(c, d)
  }

  predicate Ascending(s: seq<Candidate>) {
    forall i, j :: 0 <= i < j < |s| ==> Before(s[i], s[j])
  }

  lemma {:induction false} LeastExists(cs: set<Candidate>)
    requires cs != {} && Keyed(cs)
    ensures exists c :: IsLeast(c, cs)
  {
    var c :| c in cs;
    var rest := cs - {c};
    assert forall d :: d in cs ==> d == c || d in rest;
    if rest != {} {
      LeastExists(rest);
      var d :| IsLeast(d, rest);
      assert IsLeast(if Before(c, d) then c else d, cs);
    } else {
      assert IsLeast(c, cs);
    }
  }

  function Ordered(cs: set<Candidate>): (s: seq<Candidate>)
    requires Keyed(cs)
    ensures Ascending(s)
    ensures forall c :: c in s <==> c in cs
    ensures |s| == |cs|
  {
    if cs == {} then []
    else
      LeastExists(cs);
      var c :| IsLeast(c, cs);
      [c] + Ordered(cs - {c})
  }

  lemma TailHas(s: seq<Candidate>, c: Candidate)
    requires s != [] && Ascending(s)
    ensures c in s[1..] <==> c in s && c != s[0]
  {
    if c in s && c != s[0] {
      var i :| 0 <= i < |s| && s[i] == c;
      assert s[1..][i - 1] == c;
    }
  }

  /** An ascending sequence is determined by its elements. */
  lemma {:induction false} AscendingUnique(s: seq<Candidate>, t: seq<Candidate>)
    requires Ascending(s) && Ascending(t) && forall c :: c in s <==> c in t
    ensures s == t
  {
    assert t != [] ==> t[0] in s;
    if s != [] {
      assert s[0] in t && t[0] in s;
      assert s[0] == t[0];
      forall c
        ensures c in s[1..] <==> c in t[1..]
      {
        TailHas(s, c);
        TailHas(t, c);
      }
      AscendingUnique(s[1..], t[1..]);
    }
  }

  lemma CandidatesKeyed(db: Db, cutoff: int)
    ensures Keyed(Candidates(db, cutoff))
  {
  }

  /** What is past the k-th candidate's key is exactly the rest of the list. */
  lemma SuffixHas(s: seq<Candidate>, k: nat, c: Candidate)
    requires Ascending(s) && k < |s|
    ensures c in s[k + 1..] <==> c in s && Past(c, s[k].startedAt, s[k].id)
  {
    if c in s {
      var i :| 0 <= i < |s| && s[i] == c;
      if i > k {
        assert s[k + 1..][i - k - 1] == c;
      } else {
        assert i == k || Before(c, s[k]);
      }
    }
    if c in s[k + 1..] {
      var i :| 0 <= i < |s| - k - 1 && s[k + 1..][i] == c;
      assert c == s[k + 1 + i] && Before(s[k], s[k + 1 + i]);
    }
  }

  // ---------- one batch ----------

  function TotalSize(cs: seq<Candidate>): nat {
    if cs == [] then 0 else TotalSize(cs[..|cs| - 1]) + cs[|cs| - 1].size
  }

  predicate OneDay(cs: seq<Candidate>) {
    forall i :: 0 <= i < |cs| ==> DayOf(cs[i].startedAt) == DayOf(cs[0].startedAt)
  }

  /** One UTC day and within the byte cap, or a single row. */
  predicate BatchOk(cs: seq<Candidate>, batchBytes: int) {
    cs != [] && OneDay(cs) && (|cs| == 1 || TotalSize(cs) <= batchBytes)
  }

  /** The longest acceptable prefix of the page. */
  method TakeBatch(cands: seq<Candidate>, batchBytes: int) returns (batch: seq<Candidate>)
    requires cands != []
    ensures batch <= cands && BatchOk(batch, batchBytes)
    ensures |batch| < |cands| ==> !BatchOk(cands[..|batch| + 1], batchBytes)
  {
    var day := DayOf(cands[0].startedAt);
    var total: nat := 0;
    for i := 0 to |cands|
      invariant total == TotalSize(cands[..i])
      invariant i > 0 ==> BatchOk(cands[..i], batchBytes)
    {
      var c := cands[i];
      assert cands[..i + 1][..i] == cands[..i];
      total := total + c.size;
      if i > 0 && (DayOf(c.startedAt) != day || total > batchBytes) {
        assert cands[..i + 1][i] == c && cands[..i + 1][0] == cands[0];
        return cands[..i];
      }
      assert forall k :: 0 <= k < i ==> cands[..i + 1][k] == cands[..i][k];
    }
    assert cands[..|cands|] == cands;
    batch := cands;
  }

  function IdsOf(cs: seq<Candidate>): seq<Id> {
    seq(|cs|, i requires 0 <= i < |cs| => cs[i].id)
  }

  function MarkedIn(masks: map<Id, Mask>, ids: seq<Id>): set<Id> {
    set id | id in ids && id in masks && masks[id] != {}
  }

  lemma MarkedSnoc(masks: map<Id, Mask>, init: seq<Id>, last: Id)
    requires last !in init
    ensures |MarkedIn(masks, init + [last])| == |MarkedIn(masks, init)| + if last in masks && masks[last] != {} then 1 else 0
  {
    var before, all := MarkedIn(masks, init), MarkedIn(masks, init + [last]);
    assert last !in before;
    assert all == if last in masks && masks[last] != {} then before + {last} else before;
  }

  lemma {:induction false} CountIsCardinality(masks: map<Id, Mask>, ids: seq<Id>)
    requires Distinct(ids)
    ensures CountNonEmpty(masks, ids) == |MarkedIn(masks, ids)|
  {
    if ids != [] {
      var init, last := ids[..|ids| - 1], ids[|ids| - 1];
      CountIsCardinality(masks, init);
      assert ids == init + [last];
      assert last !in init;
      MarkedSnoc(masks, init, last);
    }
  }

  lemma {:induction false} RowIds(rows: seq<ArchiveRow>)
    requires DistinctRows(rows)
    ensures Distinct(RowIdsOf(rows)) && IdSet(RowIdsOf(rows)) == RowMap(rows).Keys
  {
    forall id
      ensures id in RowIdsOf(rows) <==> id in RowMap(rows)
    {
      RowMapHas(rows, id);
      if i :| 0 <= i < |rows| && rows[i].id == id {
        assert RowIdsOf(rows)[i] == id;
      }
      if id in RowIdsOf(rows) {
        var i :| 0 <= i < |rows| && RowIdsOf(rows)[i] == id;
        assert rows[i].id == id;
      }
    }
  }

  function RowIdsOf(rows: seq<ArchiveRow>): seq<Id> {
    seq(|rows|, i requires 0 <= i < |rows| => rows[i].id)
  }

  /** Steps 2 to 4 for the rows step 1 read. */
  function CopiedAndCleared(z: Compressor, db: Db, day: Day, rows: map<Id, Bodies>): (Db, Option<nat>) {
    var copied := DayWritten(z, db, day, rows);
    var masks := FileMasks(copied.files[day], rows.Keys);
    match MarkedAndCleared(copied, day, masks)
    case None => (copied, None)
    case Some(db') => (db', Some(|ToMark(masks)|))
  }

  lemma SameMasks(file: DayFile, rows: seq<ArchiveRow>)
    requires DistinctRows(rows)
    ensures Distinct(RowIdsOf(rows))
    ensures FileMasks(file, IdSet(RowIdsOf(rows))) == FileMasks(file, RowMap(rows).Keys)
    ensures CountNonEmpty(FileMasks(file, IdSet(RowIdsOf(rows))), RowIdsOf(rows)) == |ToMark(FileMasks(file, RowMap(rows).Keys))|
  {
    RowIds(rows);
    var ids := RowIdsOf(rows);
    var masks := FileMasks(file, IdSet(ids));
    CountIsCardinality(masks, ids);
    assert MarkedIn(masks, ids) == ToMark(masks);
  }

  method CopyAndClear(st: Store, day: Day, rows: seq<ArchiveRow>) returns (n: Option<nat>)
    requires DistinctRows(rows)
    modifies st
    ensures (st.Value(), n) == CopiedAndCleared(st.z, old(st.Value()), day, RowMap(rows))
  {
    var _ := st.WriteDay(day, rows);
    ghost var copied := st.Value();
    SameMasks(copied.files[day], rows);
    var r := st.MarkAndClear(day, RowIdsOf(rows));
    n := match r case Ok(k) => Some(k) case Err(_) => None;
  }

  /** All four steps on a batch: the store left behind, and the events moved (None when step 4 rolled back). */
  function Moved(z: Compressor, db: Db, day: Day, ids: set<Id>): (Db, Option<nat>) {
    var rows := HotOf(db.events, ids);
    if rows == map[] then (db, Some(0)) else CopiedAndCleared(z, db, day, rows)
  }

  /** archiveBatch: read, write and verify, commit, then mark and clear. */
  method ArchiveBatch(st: Store, day: Day, batch: seq<Id>) returns (n: Option<nat>)
    requires Distinct(batch)
    modifies st
    ensures (st.Value(), n) == Moved(st.z, old(st.Value()), day, IdSet(batch))
  {
    var rows := st.ReadBodies(batch);
    assert RowMap(rows) == HotOf(st.events, IdSet(batch));
    if |rows| == 0 {
      return Some(0);
    }
    RowMapAt(rows, 0);
    n := CopyAndClear(st, day, rows);
  }

  lemma MaskOfCopied(z: Compressor, db: Db, day: Day, rows: map<Id, Bodies>, id: Id)
    requires id in rows && rows[id] != map[]
    ensures var file := DayWritten(z, db, day, rows).files[day];
            id in file && file[id].mask != {}
  {
    var c :| c in rows[id];
    assert c in DayWritten(z, db, day, rows).files[day][id].mask;
  }

  lemma CopiedMasks(z: Compressor, db: Db, day: Day, rows: map<Id, Bodies>)
    requires forall id :: id in rows ==> rows[id] != map[]
    ensures ToMark(FileMasks(DayWritten(z, db, day, rows).files[day], rows.Keys)) == rows.Keys
  {
    forall id | id in rows
      ensures var masks := FileMasks(DayWritten(z, db, day, rows).files[day], rows.Keys);
              id in masks && masks[id] != {}
    {
      MaskOfCopied(z, db, day, rows, id);
    }
  }

  /** The event as it was, and its marker and day rows too. */
  ghost predicate Untouched(db: Db, db': Db, id: Id) {
    && (id in db'.events <==> id in db.events) && (id in db.events ==> db'.events[id] == db.events[id])
    && db'.MarkerOf(id) == db.MarkerOf(id)
    && forall day :: db'.RowIn(day, id) == db.RowIn(day, id)
  }

  /** No body of the event is hot any more; each one's column is marked and in the file of the marker's day. */
  predicate PutAway(z: Compressor, db: Db, db': Db, id: Id) {
    && id in db.events && id in db'.events && db'.events[id] == db.events[id].WithBodies(map[])
    && id in db'.markers && db.events[id].bodies.Keys <= db'.markers[id].mask
    && db'.RowIn(db'.markers[id].day, id).Some?
    && InRow(z, db'.RowIn(db'.markers[id].day, id).value, db.events[id].bodies)
  }

  predicate InRow(z: Compressor, row: DayRow, b: Bodies) {
    forall c :: c in b ==> c in row.mask && ReadCol(z, row, c) == Decode(z, Encode(z, b[c]))
  }

  /** `db'` is `db` with the bodies of `ids`, and theirs alone, put away. */
  ghost predicate Took(z: Compressor, db: Db, db': Db, ids: set<Id>) {
    && db'.events.Keys == db.events.Keys && db'.markers.Keys == db.markers.Keys + ids
    && (forall id :: id in ids ==> PutAway(z, db, db', id))
    && (forall id :: id !in ids ==> Untouched(db, db', id))
  }

  lemma ClearedAt(db: Db, day: Day, masks: map<Id, Mask>, id: Id)
    requires ToMark(masks) <= db.events.Keys && id !in db.markers
    ensures MarkedAndCleared(db, day, masks).Some?
    ensures id in ToMark(masks) ==>
              var db' := MarkedAndCleared(db, day, masks).value;
              && id in db'.events && db'.events[id] == db.events[id].WithBodies(db.events[id].bodies - masks[id])
              && id in db'.markers && db'.markers[id] == Marker(day, masks[id])
  {
  }

  lemma ClearedElsewhere(db: Db, day: Day, masks: map<Id, Mask>, id: Id)
    requires ToMark(masks) <= db.events.Keys && id !in ToMark(masks)
    ensures MarkedAndCleared(db, day, masks).Some? && Untouched(db, MarkedAndCleared(db, day, masks).value, id)
  {
  }

  lemma WrittenAt(z: Compressor, db: Db, day: Day, rows: map<Id, Bodies>, id: Id)
    requires id in rows
    ensures var db' := DayWritten(z, db, day, rows);
            && db'.RowIn(day, id).Some? && InRow(z, db'.RowIn(day, id).value, rows[id])
            && rows[id].Keys <= db'.RowIn(day, id).value.mask
  {
  }

  lemma WrittenElsewhere(z: Compressor, db: Db, day: Day, rows: map<Id, Bodies>, id: Id)
    requires id !in rows
    ensures Untouched(db, DayWritten(z, db, day, rows), id)
  {
  }

  lemma CopiedEffect(z: Compressor, db: Db, day: Day, rows: map<Id, Bodies>)
    requires forall id :: id in rows ==> id in db.events && id !in db.markers && rows[id] != map[] && rows[id] == db.events[id].bodies
    ensures CopiedAndCleared(z, db, day, rows).1 == Some(|rows.Keys|)
    ensures Took(z, db, CopiedAndCleared(z, db, day, rows).0, rows.Keys)
  {
    CopiedMasks(z, db, day, rows);
    var copied := DayWritten(z, db, day, rows);
    var masks := FileMasks(copied.files[day], rows.Keys);
    var db' := CopiedAndCleared(z, db, day, rows).0;
    forall id
      ensures id in rows ==> PutAway(z, db, db', id)
      ensures id !in rows ==> Untouched(db, db', id)
    {
      CopiedAt(z, db, copied, day, rows, masks, db', id);
    }
    ClearedKeys(copied, day, masks);
  }

  lemma ClearedKeys(db: Db, day: Day, masks: map<Id, Mask>)
    requires ToMark(masks) <= db.events.Keys
    ensures var db' := MarkedAndCleared(db, day, masks);
            db'.Some? && db'.value.events.Keys == db.events.Keys && db'.value.markers.Keys == db.markers.Keys + ToMark(masks)
  {
  }

  lemma CopiedAt(z: Compressor, db: Db, copied: Db, day: Day, rows: map<Id, Bodies>, masks: map<Id, Mask>, db': Db, id: Id)
    requires copied == DayWritten(z, db, day, rows) && masks == FileMasks(copied.files[day], rows.Keys)
    requires ToMark(masks) == rows.Keys && rows.Keys <= db.events.Keys && MarkedAndCleared(copied, day, masks) == Some(db')
    requires id in rows ==> id !in db.markers && rows[id] == db.events[id].bodies
    ensures id in rows ==> PutAway(z, db, db', id)
    ensures id !in rows ==> Untouched(db, db', id)
  {
    if id in rows {
      WrittenAt(z, db, day, rows, id);
      ClearedAt(copied, day, masks, id);
      assert db.events[id].bodies - masks[id] == map[];
    } else {
      WrittenElsewhere(z, db, day, rows, id);
      ClearedElsewhere(copied, day, masks, id);
    }
  }

  /** On a batch of candidates nothing is skipped and step 4 commits. */
  lemma MovedEffect(z: Compressor, db: Db, day: Day, ids: set<Id>)
    requires forall id :: id in ids ==> Archivable(db, id)
    ensures Moved(z, db, day, ids).1 == Some(|ids|)
    ensures Took(z, db, Moved(z, db, day, ids).0, ids)
  {
    var rows := HotOf(db.events, ids);
    assert rows.Keys == ids;
    if rows != map[] {
      CopiedEffect(z, db, day, rows);
    } else {
      assert ids == {};
    }
  }

  /** Candidates after a batch: those before it, less the batch. */
  lemma MovedCandidates(z: Compressor, db: Db, day: Day, ids: set<Id>, cutoff: int)
    requires forall id :: id in ids ==> Archivable(db, id)
    ensures Candidates(Moved(z, db, day, ids).0, cutoff) == set c | c in Candidates(db, cutoff) && c.id !in ids
  {
    MovedEffect(z, db, day, ids);
    var db' := Moved(z, db, day, ids).0;
    forall c
      ensures c in Candidates(db', cutoff) <==> c in Candidates(db, cutoff) && c.id !in ids
    {
      CandidateKept(z, db, db', ids, cutoff, c);
    }
  }

  lemma CandidateKept(z: Compressor, db: Db, db': Db, ids: set<Id>, cutoff: int, c: Candidate)
    requires Took(z, db, db', ids)
    ensures c in Candidates(db', cutoff) <==> c in Candidates(db, cutoff) && c.id !in ids
  {
    IsCandidate(db, cutoff, c);
    IsCandidate(db', cutoff, c);
  }

  lemma IsCandidate(db: Db, cutoff: int, c: Candidate)
    ensures c in Candidates(db, cutoff)
       <==> c.id in db.events && Eligible(db, cutoff, c.id) && c == CandidateOf(db.events[c.id], c.id)
  {
  }

  // ---------- a batch is five steps of the protocol ----------

  /** One archiver, process 0, taking one batch through. */
  function BatchActions(day: Day, ids: set<Id>): seq<Action> {
    [Choose(0, day, ids), ReadBodies(0), WriteDay(0), ReadMasks(0), MarkAndClear(0)]
  }

  lemma AloneSteps(z: Compressor, db: Db, day: Day, ids: set<Id>, l: Id)
    requires ChoosesFrom(db, day, ids)
    ensures Step(z, Sys(db, map[], l), Choose(0, day, ids)) == Alone(db, Chosen(day, ids), l)
  {
    assert !Sys(db, map[], l).Restores();
  }

  lemma AloneMoves(db: Db, pc: Proc, next: Proc, l: Id)
    ensures Alone(db, pc, l).(procs := Alone(db, pc, l).procs[0 := next]) == Alone(db, next, l)
  {
  }

  lemma WritesTo(z: Compressor, s: Sys, p: Pid, written: Db)
    requires !s.Restores() && p in s.procs && s.procs[p].HasBodies?
    requires written == DayWritten(z, s.db, s.procs[p].day, s.procs[p].rows)
    ensures Step(z, s, WriteDay(p))
         == s.(db := written, procs := s.procs[p := Written(s.procs[p].day, s.procs[p].rows.Keys)])
  {
  }

  lemma AloneReads(z: Compressor, db: Db, day: Day, ids: set<Id>, l: Id)
    requires HotOf(db.events, ids) != map[]
    ensures Step(z, Alone(db, Chosen(day, ids), l), ReadBodies(0)) == Alone(db, HasBodies(day, HotOf(db.events, ids)), l)
  {
    var s := Alone(db, Chosen(day, ids), l);
    assert !s.Restores();
    ReadBodiesTaken(z, s, 0);
    AloneMoves(db, Chosen(day, ids), HasBodies(day, HotOf(db.events, ids)), l);
  }

  lemma AloneWrites(z: Compressor, db: Db, day: Day, rows: map<Id, Bodies>, l: Id)
    ensures Step(z, Alone(db, HasBodies(day, rows), l), WriteDay(0))
         == Alone(DayWritten(z, db, day, rows), Written(day, rows.Keys), l)
  {
    var s := Alone(db, HasBodies(day, rows), l);
    assert !s.Restores();
    AloneMoves(db, HasBodies(day, rows), Written(day, rows.Keys), l);
    WritesTo(z, s, 0, DayWritten(z, db, day, rows));
  }

  lemma AloneReadsMasks(z: Compressor, db: Db, day: Day, ids: set<Id>, l: Id)
    requires day in db.files
    ensures Step(z, Alone(db, Written(day, ids), l), ReadMasks(0))
         == Alone(db, HasMasks(day, FileMasks(db.files[day], ids)), l)
  {
    assert !Alone(db, Written(day, ids), l).Restores();
  }

  lemma AloneMarks(z: Compressor, db: Db, day: Day, masks: map<Id, Mask>, l: Id)
    ensures Step(z, Alone(db, HasMasks(day, masks), l), MarkAndClear(0))
         == Sys(MarkedAndCleared(db, day, masks).GetOr(db), map[], l)
  {
    var s := Alone(db, HasMasks(day, masks), l);
    assert !s.Restores();
    assert s.procs - {0} == map[];
  }

  /** archiveBatch is a run of the protocol. */
  lemma BatchIsRun(z: Compressor, db: Db, day: Day, ids: set<Id>, l: Id)
    requires ids != {} && ChoosesFrom(db, day, ids)
    ensures Run(z, Sys(db, map[], l), BatchActions(day, ids)) == Sys(Moved(z, db, day, ids).0, map[], l)
  {
    var id :| id in ids;
    var rows := HotOf(db.events, ids);
    assert id in rows;
    MovedBySteps(z, db, day, ids);
    var copied := DayWritten(z, db, day, rows);
    BatchRuns(z, db, day, ids, rows, copied, FileMasks(copied.files[day], rows.Keys), l);
  }

  lemma MovedBySteps(z: Compressor, db: Db, day: Day, ids: set<Id>)
    requires HotOf(db.events, ids) != map[]
    ensures var rows := HotOf(db.events, ids);
            var copied := DayWritten(z, db, day, rows);
            Moved(z, db, day, ids).0
            == MarkedAndCleared(copied, day, FileMasks(copied.files[day], rows.Keys)).GetOr(copied)
  {
  }

  lemma BatchRuns(z: Compressor, db: Db, day: Day, ids: set<Id>, rows: map<Id, Bodies>, copied: Db, masks: map<Id, Mask>, l: Id)
    requires ChoosesFrom(db, day, ids) && rows == HotOf(db.events, ids) && rows != map[]
    requires copied == DayWritten(z, db, day, rows) && day in copied.files
    requires masks == FileMasks(copied.files[day], rows.Keys)
    ensures Run(z, Sys(db, map[], l), BatchActions(day, ids))
         == Sys(MarkedAndCleared(copied, day, masks).GetOr(copied), map[], l)
  {
    var s0, s1, s2 := Sys(db, map[], l), Alone(db, Chosen(day, ids), l), Alone(db, HasBodies(day, rows), l);
    var s3, s4 := Alone(copied, Written(day, rows.Keys), l), Alone(copied, HasMasks(day, masks), l);
    AloneSteps(z, db, day, ids, l);
    AloneReads(z, db, day, ids, l);
    AloneWrites(z, db, day, rows, l);
    AloneReadsMasks(z, copied, day, rows.Keys, l);
    AloneMarks(z, copied, day, masks, l);
    FiveSteps(z, s0, s1, s2, s3, s4, Sys(MarkedAndCleared(copied, day, masks).GetOr(copied), map[], l), day, ids);
  }

  lemma FiveSteps(z: Compressor, s0: Sys, s1: Sys, s2: Sys, s3: Sys, s4: Sys, s5: Sys, day: Day, ids: set<Id>)
    requires Step(z, s0, Choose(0, day, ids)) == s1 && Step(z, s1, ReadBodies(0)) == s2
    requires Step(z, s2, WriteDay(0)) == s3 && Step(z, s3, ReadMasks(0)) == s4 && Step(z, s4, MarkAndClear(0)) == s5
    ensures Run(z, s0, BatchActions(day, ids)) == s5
  {
    var c := Choose(0, day, ids);
    Extend(z, s0, [], c, s0, s1);
    Extend(z, s0, [] + [c], ReadBodies(0), s1, s2);
    Extend(z, s0, [] + [c] + [ReadBodies(0)], WriteDay(0), s2, s3);
    Extend(z, s0, [] + [c] + [ReadBodies(0)] + [WriteDay(0)], ReadMasks(0), s3, s4);
    Extend(z, s0, [] + [c] + [ReadBodies(0)] + [WriteDay(0)] + [ReadMasks(0)], MarkAndClear(0), s4, s5);
    assert [] + [c] + [ReadBodies(0)] + [WriteDay(0)] + [ReadMasks(0)] + [MarkAndClear(0)] == BatchActions(day, ids);
  }

  // ---------- the whole run ----------

  function Wrap64(x: int): int {
    (x - MIN_INT64) % 0x1_0000_0000_0000_0000 + MIN_INT64
  }

  /** now minus the hot window, in 64-bit nanoseconds: a window past some 292 years wraps. */
  function Cutoff(hotDays: int, now: int): int {
    Wrap64(now - hotDays * NANOS_PER_DAY)
  }

  /** Now minus so many days of 24 hours, before it is put in 64 bits. */
  function WindowEdge(hotDays: int, now: int): int {
    now - hotDays * (24 * 3600 * 1000000000)
  }

  /** The edge of the window is a 64-bit count of nanoseconds. */
  predicate EdgeFits(hotDays: int, now: int) {
    -0x8000_0000_0000_0000 <= WindowEdge(hotDays, now) < 0x8000_0000_0000_0000
  }

  /** The cutoff is the edge of the window exactly when that edge is within 64 bits, and else differs from it by wrapping. */
  lemma CutoffExactly(hotDays: int, now: int)
    ensures Cutoff(hotDays, now) == WindowEdge(hotDays, now) <==> EdgeFits(hotDays, now)
    ensures -0x8000_0000_0000_0000 <= Cutoff(hotDays, now) < 0x8000_0000_0000_0000
    ensures (Cutoff(hotDays, now) - WindowEdge(hotDays, now)) % 0x1_0000_0000_0000_0000 == 0
  {
    Wrapping(now - hotDays * NANOS_PER_DAY);
  }

  lemma Wrapping(x: int)
    ensures Wrap64(x) == x <==> -0x8000_0000_0000_0000 <= x < 0x8000_0000_0000_0000
    ensures -0x8000_0000_0000_0000 <= Wrap64(x) < 0x8000_0000_0000_0000
    ensures (Wrap64(x) - x) % 0x1_0000_0000_0000_0000 == 0
  {
    var q := (x - MIN_INT64) / 0x1_0000_0000_0000_0000;
    assert Wrap64(x) - x == -q * 0x1_0000_0000_0000_0000;
  }

  /** An unmarked event with a body and without the backfill still to come: what a run moves once it is old enough. */
  predicate Movable(db: Db, id: Id) {
    && id in db.events && id !in db.markers && db.events[id].bodies != map[]
    && !(Req in db.events[id].bodies && db.events[id].toolNames == None)
  }

  function CountArchivable(db: Db, hotDays: int, now: int): nat {
    if hotDays <= 0 then 0 else |set id | id in db.events && Eligible(db, Cutoff(hotDays, now), id)|
  }

  function SkippedBackfill(db: Db, cutoff: int): set<Id> {
    set id | id in db.events && db.events[id].fixed.startedAt < cutoff
             && AwaitsBackfill(db.events[id]) && id !in db.markers
  }

  /** AUTOINCREMENT ids start at 1 and started_at is a 64-bit column. */
  predicate Rowids(db: Db) {
    forall id :: id in db.events ==> id >= 1 && db.events[id].fixed.startedAt >= MIN_INT64
  }

  function Flatten(batches: seq<seq<Candidate>>): seq<Candidate> {
    if batches == [] then [] else Flatten(batches[..|batches| - 1]) + batches[|batches| - 1]
  }

  lemma {:induction false} CandidateIds(cs: set<Candidate>, ids: set<Id>)
    requires forall a, b :: a in cs && b in cs && a.id == b.id ==> a == b
    requires forall id :: id in ids <==> exists c :: c in cs && c.id == id
    ensures |cs| == |ids|
    decreases |cs|
  {
    if cs == {} {
      assert ids == {};
    } else {
      var c :| c in cs;
      assert c.id in ids;
      forall id
        ensures id in ids - {c.id} <==> exists d :: d in cs - {c} && d.id == id
      {
        if id in ids && id != c.id {
          var d :| d in cs && d.id == id;
          assert d in cs - {c};
        }
      }
      CandidateIds(cs - {c}, ids - {c.id});
    }
  }

  /** The dry run counts what the candidate query selects. */
  lemma CountIsCandidates(db: Db, hotDays: int, now: int)
    requires hotDays > 0
    ensures CountArchivable(db, hotDays, now) == |Candidates(db, Cutoff(hotDays, now))|
  {
    var cutoff := Cutoff(hotDays, now);
    var cs := Candidates(db, cutoff);
    var ids := set id | id in db.events && Eligible(db, cutoff, id);
    forall id
      ensures id in ids <==> exists c :: c in cs && c.id == id
    {
      if id in ids {
        assert CandidateOf(db.events[id], id) in cs;
      }
    }
    CandidateIds(cs, ids);
  }

  /** The candidates left are those of `rest`. */
  ghost predicate Remain(db: Db, cutoff: int, rest: seq<Candidate>) {
    Ascending(rest) && forall c :: c in Candidates(db, cutoff) <==> c in rest
  }

  /** With the cursor on the last row taken (or at its start), the next page is the head of what remains. */
  lemma NextPage(db: Db, cutoff: int, all: seq<Candidate>, k: nat, lastStarted: int, lastId: int)
    requires k <= |all| && Ascending(all) && Remain(db, cutoff, all[k..])
    requires CursorAt(all, k, lastStarted, lastId, db)
    ensures Keyed(PastCursor(Candidates(db, cutoff), lastStarted, lastId))
    ensures Ordered(PastCursor(Candidates(db, cutoff), lastStarted, lastId)) == all[k..]
  {
    CandidatesKeyed(db, cutoff);
    var past := PastCursor(Candidates(db, cutoff), lastStarted, lastId);
    forall c
      ensures c in Ordered(past) <==> c in all[k..]
    {
      if k > 0 {
        SuffixHas(all, k - 1, c);
      } else {
        IsCandidate(db, cutoff, c);
      }
    }
    AscendingUnique(Ordered(past), all[k..]);
  }

  lemma BatchIds(db: Db, cutoff: int, rest: seq<Candidate>, m: nat)
    requires Remain(db, cutoff, rest) && 1 <= m <= |rest| && OneDay(rest[..m])
    ensures var ids := IdsOf(rest[..m]);
            && Distinct(ids) && |IdSet(ids)| == m && IdSet(ids) != {}
            && ChoosesFrom(db, DayOf(rest[0].startedAt), IdSet(ids))
            && forall c :: c in rest[m..] <==> c in Candidates(db, cutoff) && c.id !in IdSet(ids)
  {
    var batch := rest[..m];
    var ids := IdsOf(batch);
    forall i | 0 <= i < |rest|
      ensures rest[i].id in db.events && rest[i] == CandidateOf(db.events[rest[i].id], rest[i].id)
      ensures Archivable(db, rest[i].id)
    {
      assert rest[i] in Candidates(db, cutoff);
      IsCandidate(db, cutoff, rest[i]);
    }
    forall i, j | 0 <= i < j < |rest|
      ensures rest[i].id != rest[j].id
    {
      assert Before(rest[i], rest[j]);
    }
    SetOfDistinct(ids);
    assert ids[0] in IdSet(ids);
    forall id | id in IdSet(ids)
      ensures Archivable(db, id) && DayOf(db.events[id].fixed.startedAt) == DayOf(rest[0].startedAt)
    {
      var i :| 0 <= i < m && ids[i] == id;
      assert batch[i] == rest[i] && batch[0] == rest[0];
    }
    forall c
      ensures c in rest[m..] <==> c in Candidates(db, cutoff) && c.id !in IdSet(ids)
    {
      TakenOrLeft(rest, m, c);
    }
  }

  lemma TakenOrLeft(rest: seq<Candidate>, m: nat, c: Candidate)
    requires m <= |rest| && forall i, j :: 0 <= i < j < |rest| ==> rest[i].id != rest[j].id
    ensures c in rest[m..] <==> c in rest && c.id !in IdSet(IdsOf(rest[..m]))
  {
    var ids := IdsOf(rest[..m]);
    if c in rest[m..] {
      var j :| 0 <= j < |rest| - m && rest[m..][j] == c;
      assert rest[m + j] == c;
      forall i | 0 <= i < m
        ensures ids[i] != c.id
      {
        assert rest[i].id != rest[m + j].id;
      }
    }
    if c in rest && c.id !in IdSet(ids) {
      var i :| 0 <= i < |rest| && rest[i] == c;
      forall k | 0 <= k < m
        ensures rest[k] != c
      {
        assert ids[k] in IdSet(ids);
      }
      assert rest[m..][i - m] == c;
    }
  }

  lemma {:induction false} SetOfDistinct(ids: seq<Id>)
    requires Distinct(ids)
    ensures |IdSet(ids)| == |ids|
  {
    if ids != [] {
      var init, last := ids[..|ids| - 1], ids[|ids| - 1];
      SetOfDistinct(init);
      assert ids == init + [last];
      assert last !in IdSet(init);
      assert IdSet(ids) == IdSet(init) + {last};
    }
  }

  lemma RestRemains(db: Db, db': Db, cutoff: int, rest: seq<Candidate>, m: nat, ids: set<Id>)
    requires Ascending(rest) && m <= |rest|
    requires Candidates(db', cutoff) == set c | c in Candidates(db, cutoff) && c.id !in ids
    requires forall c :: c in rest[m..] <==> c in Candidates(db, cutoff) && c.id !in ids
    ensures Remain(db', cutoff, rest[m..])
  {
    assert forall i :: 0 <= i < |rest| - m ==> rest[m..][i] == rest[m + i];
  }

  /** Moving the first `m` of what remains leaves the rest. */
  lemma BatchLeaves(z: Compressor, db: Db, cutoff: int, rest: seq<Candidate>, m: nat, ids: set<Id>, day: Day)
    requires Ascending(rest) && m <= |rest| && |ids| == m && ChoosesFrom(db, day, ids)
    requires forall c :: c in rest[m..] <==> c in Candidates(db, cutoff) && c.id !in ids
    ensures Moved(z, db, day, ids).1 == Some(m)
    ensures Remain(Moved(z, db, day, ids).0, cutoff, rest[m..])
    ensures Took(z, db, Moved(z, db, day, ids).0, ids) && ids !! db.markers.Keys
  {
    MovedEffect(z, db, day, ids);
    MovedCandidates(z, db, day, ids, cutoff);
    RestRemains(db, Moved(z, db, day, ids).0, cutoff, rest, m, ids);
  }

  datatype RunResult = RunResult(archived: nat, batches: nat, skippedBackfill: nat, finished: bool)

  predicate ArchiverOnly(a: Action) {
    a.Choose? || a.ReadBodies? || a.WriteDay? || a.ReadMasks? || a.MarkAndClear?
  }

  lemma BatchActionsArchive(day: Day, ids: set<Id>)
    ensures forall a :: a in BatchActions(day, ids) ==> ArchiverOnly(a)
  {
  }

  /** What moving the first `m` rows of `rest` does, in one place. */
  lemma BatchTaken(z: Compressor, db: Db, cutoff: int, rest: seq<Candidate>, m: nat, legacyBelow: Id)
    requires Remain(db, cutoff, rest) && 1 <= m <= |rest| && OneDay(rest[..m])
    ensures var ids, day := IdsOf(rest[..m]), DayOf(rest[0].startedAt);
            var moved := Moved(z, db, day, IdSet(ids));
            && Distinct(ids) && moved.1 == Some(m) && Remain(moved.0, cutoff, rest[m..])
            && Took(z, db, moved.0, IdSet(ids)) && IdSet(ids) !! db.markers.Keys
            && Protocol.Run(z, Sys(db, map[], legacyBelow), BatchActions(day, IdSet(ids)))
               == Sys(moved.0, map[], legacyBelow)
  {
    BatchIds(db, cutoff, rest, m);
    var ids, day := IdSet(IdsOf(rest[..m])), DayOf(rest[0].startedAt);
    BatchLeaves(z, db, cutoff, rest, m, ids, day);
    BatchIsRun(z, db, day, ids, legacyBelow);
  }

  /** The keyset cursor stands on the last row taken, or at its start. */
  predicate CursorAt(all: seq<Candidate>, k: nat, lastStarted: int, lastId: int, db: Db)
    requires k <= |all|
  {
    if k == 0 then lastStarted == MIN_INT64 && lastId == 0 && Rowids(db)
    else lastStarted == all[k - 1].startedAt && lastId == all[k - 1].id
  }

  /** The batches are the first `k` candidates in order, each acceptable. */
  predicate TakenOk(taken: seq<seq<Candidate>>, all: seq<Candidate>, k: nat, batchRows: int, batchBytes: int) {
    && k <= |all| && Flatten(taken) == all[..k]
    && forall b :: b in taken ==> BatchOk(b, batchBytes) && (batchRows >= 0 ==> |b| <= batchRows)
  }

  lemma {:induction false} TakenSnoc(taken: seq<seq<Candidate>>, all: seq<Candidate>, k: nat, batchRows: int,
                                     batchBytes: int, batch: seq<Candidate>)
    requires TakenOk(taken, all, k, batchRows, batchBytes)
    requires batch <= all[k..] && BatchOk(batch, batchBytes) && (batchRows >= 0 ==> |batch| <= batchRows)
    ensures TakenOk(taken + [batch], all, k + |batch|, batchRows, batchBytes)
    ensures all[k..][|batch|..] == all[k + |batch|..] && batch == all[k..k + |batch|]
  {
    assert (taken + [batch])[..|taken|] == taken;
    assert batch == all[k..k + |batch|];
    assert all[..k] + batch == all[..k + |batch|];
  }

  /** A run so far: the batches taken, as protocol actions too, and what remains. */
  ghost predicate Progress(z: Compressor, start: Sys, db: Db, cutoff: int, all: seq<Candidate>, k: nat,
                           taken: seq<seq<Candidate>>, actions: seq<Action>, batchRows: int, batchBytes: int)
  {
    && TakenOk(taken, all, k, batchRows, batchBytes)
    && Remain(db, cutoff, all[k..])
    && Took(z, start.db, db, IdSet(IdsOf(all[..k])))
    && (forall a :: a in actions ==> ArchiverOnly(a))
    && Protocol.Run(z, start, actions) == Sys(db, map[], start.legacyBelow)
  }

  lemma TookThen(z: Compressor, a: Db, b: Db, c: Db, first: set<Id>, next: set<Id>)
    requires Took(z, a, b, first) && Took(z, b, c, next) && next !! b.markers.Keys
    ensures Took(z, a, c, first + next)
  {
    forall id
      ensures id in first + next ==> PutAway(z, a, c, id)
      ensures id !in first + next ==> Untouched(a, c, id)
    {
      if id in first {
        assert PutAway(z, a, b, id) && Untouched(b, c, id);
      } else {
        assert Untouched(a, b, id);
        assert id in next ==> PutAway(z, b, c, id);
        assert id !in next ==> Untouched(b, c, id);
      }
    }
  }

  lemma IdsSnoc(all: seq<Candidate>, k: nat, batch: seq<Candidate>)
    requires k + |batch| <= |all| && batch == all[k..k + |batch|]
    ensures IdSet(IdsOf(all[..k + |batch|])) == IdSet(IdsOf(all[..k])) + IdSet(IdsOf(batch))
  {
    assert IdsOf(all[..k + |batch|]) == IdsOf(all[..k]) + IdsOf(batch);
  }

  /** From `db` to `db'` the first rows of what remained, `batch`, were put away, and the rest remains. */
  ghost predicate Advanced(z: Compressor, db: Db, db': Db, cutoff: int, rest: seq<Candidate>, batch: seq<Candidate>) {
    && batch <= rest && Remain(db', cutoff, rest[|batch|..])
    && Took(z, db, db', IdSet(IdsOf(batch))) && IdSet(IdsOf(batch)) !! db.markers.Keys
  }

  lemma NoneAdvanced(z: Compressor, db: Db, cutoff: int, rest: seq<Candidate>)
    requires Remain(db, cutoff, rest)
    ensures Advanced(z, db, db, cutoff, rest, [])
  {
    assert rest[0..] == rest && IdSet(IdsOf([])) == {};
  }

  lemma ProgressStart(z: Compressor, start: Sys, cutoff: int, all: seq<Candidate>, batchRows: int, batchBytes: int)
    requires Remain(start.db, cutoff, all) && start.procs == map[]
    ensures Progress(z, start, start.db, cutoff, all, 0, [], [], batchRows, batchBytes)
  {
    assert all[0..] == all && all[..0] == [];
    assert IdSet(IdsOf(all[..0])) == {};
  }

  lemma ProgressSnoc(z: Compressor, start: Sys, db: Db, cutoff: int, all: seq<Candidate>, k: nat,
                     taken: seq<seq<Candidate>>, actions: seq<Action>, batchRows: int, batchBytes: int,
                     batch: seq<Candidate>, steps: seq<Action>, db': Db)
    requires Progress(z, start, db, cutoff, all, k, taken, actions, batchRows, batchBytes)
    requires Advanced(z, db, db', cutoff, all[k..], batch)
    requires BatchOk(batch, batchBytes) && (batchRows >= 0 ==> |batch| <= batchRows)
    requires forall a :: a in steps ==> ArchiverOnly(a)
    requires Protocol.Run(z, Sys(db, map[], start.legacyBelow), steps) == Sys(db', map[], start.legacyBelow)
    ensures Progress(z, start, db', cutoff, all, k + |batch|, taken + [batch], actions + steps, batchRows, batchBytes)
    ensures all[k + |batch| - 1] == batch[|batch| - 1]
  {
    TakenSnoc(taken, all, k, batchRows, batchBytes, batch);
    IdsSnoc(all, k, batch);
    TookThen(z, start.db, db, db', IdSet(IdsOf(all[..k])), IdSet(IdsOf(batch)));
    RunAppend(z, start, actions, steps);
  }

  /** What taking the first `k` candidates did to each event. */
  lemma TakenEffect(z: Compressor, db: Db, db': Db, cutoff: int, all: seq<Candidate>, k: nat, id: Id)
    requires Remain(db, cutoff, all) && k <= |all| && Took(z, db, db', IdSet(IdsOf(all[..k]))) && id in db.events
    ensures db.events[id].fixed.startedAt >= cutoff || !Movable(db, id) ==> Untouched(db, db', id)
    ensures k == |all| && db.events[id].fixed.startedAt < cutoff && Movable(db, id) ==> PutAway(z, db, db', id)
  {
    var ids := IdsOf(all[..k]);
    var c := CandidateOf(db.events[id], id);
    IsCandidate(db, cutoff, c);
    if id in IdSet(ids) {
      var i :| 0 <= i < |ids| && ids[i] == id;
      assert all[i] in all;
      IsCandidate(db, cutoff, all[i]);
    } else {
      forall i | 0 <= i < k
        ensures all[i] != c
      {
        assert ids[i] in IdSet(ids);
      }
    }
  }

  /** The dry run and the skipped count, with the window spelled out. */
  lemma CountsByName(db: Db, hotDays: int, now: int)
    requires hotDays > 0 && EdgeFits(hotDays, now)
    ensures CountArchivable(db, hotDays, now)
         == |set id | id in db.events && Movable(db, id) && db.events[id].fixed.startedAt < WindowEdge(hotDays, now)|
    ensures |SkippedBackfill(db, Cutoff(hotDays, now))|
         == |set id | id in db.events && id !in db.markers && db.events[id].fixed.startedAt < WindowEdge(hotDays, now)
                      && Req in db.events[id].bodies && db.events[id].toolNames == None|
  {
    CutoffExactly(hotDays, now);
    var cutoff := Cutoff(hotDays, now);
    assert (set id | id in db.events && Eligible(db, cutoff, id))
        == set id | id in db.events && Movable(db, id) && db.events[id].fixed.startedAt < WindowEdge(hotDays, now);
    assert SkippedBackfill(db, cutoff)
        == set id | id in db.events && id !in db.markers && db.events[id].fixed.startedAt < WindowEdge(hotDays, now)
                    && Req in db.events[id].bodies && db.events[id].toolNames == None;
  }

  class Archiver {
    const st: Store
    const batchRows: int
    const batchBytes: int

    constructor (st: Store, batchRows: int, batchBytes: int)
      ensures this.st == st && this.batchRows == batchRows && this.batchBytes == batchBytes
    {
      this.st, this.batchRows, this.batchBytes := st, batchRows, batchBytes;
    }

    /** One batch: the rows to move, taken from a page of candidates and moved. */
    method MoveBatch(cands: seq<Candidate>, cutoff: int, ghost rest: seq<Candidate>, ghost legacyBelow: Id)
      returns (batch: seq<Candidate>, n: Option<nat>, ghost actions: seq<Action>)
      requires cands != [] && cands <= rest && Remain(st.Value(), cutoff, rest)
      modifies st
      ensures batch <= cands && BatchOk(batch, batchBytes) && n == Some(|batch|)
      ensures Advanced(st.z, old(st.Value()), st.Value(), cutoff, rest, batch)
      ensures forall a :: a in actions ==> ArchiverOnly(a)
      ensures Protocol.Run(st.z, Sys(old(st.Value()), map[], legacyBelow), actions)
           == Sys(st.Value(), map[], legacyBelow)
    {
      batch := TakeBatch(cands, batchBytes);
      assert batch == rest[..|batch|] && batch[0] == rest[0];
      ghost var day, ids := DayOf(rest[0].startedAt), IdSet(IdsOf(batch));
      BatchTaken(st.z, st.Value(), cutoff, rest, |batch|, legacyBelow);
      BatchActionsArchive(day, ids);
      actions := BatchActions(day, ids);
      n := ArchiveBatch(st, DayOf(batch[0].startedAt), IdsOf(batch));
    }

    /** One turn of the loop: the next page, its first batch, and that batch moved; [] at the end. */
    method NextBatch(cutoff: int, lastStarted: int, lastId: int, ghost all: seq<Candidate>, ghost k: nat,
                     ghost legacyBelow: Id)
      returns (batch: seq<Candidate>, ghost actions: seq<Action>)
      requires k <= |all| && Ascending(all) && Remain(st.Value(), cutoff, all[k..])
      requires CursorAt(all, k, lastStarted, lastId, st.Value())
      modifies st
      ensures batch == [] <==> k == |all| || batchRows == 0
      ensures Advanced(st.z, old(st.Value()), st.Value(), cutoff, all[k..], batch)
      ensures (batchRows >= 0 ==> |batch| <= batchRows) && (batch != [] ==> BatchOk(batch, batchBytes))
      ensures forall a :: a in actions ==> ArchiverOnly(a)
      ensures Protocol.Run(st.z, Sys(old(st.Value()), map[], legacyBelow), actions)
           == Sys(st.Value(), map[], legacyBelow)
      ensures batch == [] ==> st.Value() == old(st.Value())
    {
      NextPage(st.Value(), cutoff, all, k, lastStarted, lastId);
      var cands := Limit(Ordered(PastCursor(Candidates(st.Value(), cutoff), lastStarted, lastId)), batchRows);
      if |cands| == 0 {
        NoneAdvanced(st.z, st.Value(), cutoff, all[k..]);
        return [], [];
      }
      var n;
      batch, n, actions := MoveBatch(cands, cutoff, all[k..], legacyBelow);
    }

    /**
     The loop. `cancelled` says at which batch boundary the context is found cancelled; `taken` and `actions`
     are what it did, as batches and as protocol actions.
     */
    method Pages(cutoff: int, cancelled: nat -> bool, ghost all: seq<Candidate>, ghost legacyBelow: Id)
      returns (archived: nat, batches: nat, finished: bool, ghost taken: seq<seq<Candidate>>, ghost actions: seq<Action>)
      requires Rowids(st.Value()) && Remain(st.Value(), cutoff, all)
      modifies st
      ensures batches == |taken|
      ensures Progress(st.z, Sys(old(st.Value()), map[], legacyBelow), st.Value(), cutoff, all, archived, taken, actions,
                       batchRows, batchBytes)
      ensures !finished ==> cancelled(batches)
      ensures finished ==> archived == |all| || batchRows == 0
    {
      ghost var start := Sys(st.Value(), map[], legacyBelow);
      var lastStarted, lastId := MIN_INT64, 0;
      archived, batches, taken, actions := 0, 0, [], [];
      ProgressStart(st.z, start, cutoff, all, batchRows, batchBytes);
      while true
        invariant Progress(st.z, start, st.Value(), cutoff, all, archived, taken, actions, batchRows, batchBytes)
        invariant CursorAt(all, archived, lastStarted, lastId, st.Value()) && batches == |taken|
        decreases |all| - archived
      {
        if cancelled(batches) {
          return archived, batches, false, taken, actions;
        }
        ghost var before := st.Value();
        var batch;
        ghost var steps;
        batch, steps := NextBatch(cutoff, lastStarted, lastId, all, archived, legacyBelow);
        if |batch| == 0 {
          return archived, batches, true, taken, actions;
        }
        ProgressSnoc(st.z, start, before, cutoff, all, archived, taken, actions, batchRows, batchBytes,
                     batch, steps, st.Value());
        actions, taken := actions + steps, taken + [batch];
        var last := batch[|batch| - 1];
        lastStarted, lastId := last.startedAt, last.id;
        archived, batches := archived + |batch|, batches + 1;
      }
    }

    /** One run on a store nobody else touches. */
    method Run(hotDays: int, now: int, cancelled: nat -> bool, ghost legacyBelow: Id)
      returns (res: RunResult, ghost taken: seq<seq<Candidate>>, ghost actions: seq<Action>)
      requires Rowids(st.Value())
      modifies st
      ensures hotDays <= 0 ==> res == RunResult(0, 0, 0, true) && st.Value() == old(st.Value())
      ensures hotDays > 0 ==> Keyed(Candidates(old(st.Value()), Cutoff(hotDays, now)))
      ensures hotDays > 0 ==>
        var all := Ordered(Candidates(old(st.Value()), Cutoff(hotDays, now)));
        && res.batches == |taken| && TakenOk(taken, all, res.archived, batchRows, batchBytes)
        && res.skippedBackfill == |SkippedBackfill(old(st.Value()), Cutoff(hotDays, now))|
        && Remain(st.Value(), Cutoff(hotDays, now), all[res.archived..])
      ensures hotDays > 0 && EdgeFits(hotDays, now) ==> forall id :: id in old(st.events) ==>
        && (old(st.events)[id].fixed.startedAt >= WindowEdge(hotDays, now) || !Movable(old(st.Value()), id) ==>
              Untouched(old(st.Value()), st.Value(), id))
        && (res.finished && batchRows != 0 && Movable(old(st.Value()), id)
              && old(st.events)[id].fixed.startedAt < WindowEdge(hotDays, now) ==>
              PutAway(st.z, old(st.Value()), st.Value(), id))
      ensures !res.finished ==> cancelled(res.batches)
      ensures res.finished && batchRows != 0 ==> res.archived == CountArchivable(old(st.Value()), hotDays, now)
      ensures forall a :: a in actions ==> ArchiverOnly(a)
      ensures Protocol.Run(st.z, Sys(old(st.Value()), map[], legacyBelow), actions)
           == Sys(st.Value(), map[], legacyBelow)
    {
      if hotDays <= 0 {
        return RunResult(0, 0, 0, true), [], [];
      }
      var cutoff := Cutoff(hotDays, now);
      CandidatesKeyed(st.Value(), cutoff);
      CountIsCandidates(st.Value(), hotDays, now);
      ghost var all := Ordered(Candidates(st.Value(), cutoff));
      var skipped := |SkippedBackfill(st.Value(), cutoff)|;
      var archived, batches, finished;
      ghost var db := st.Value();
      archived, batches, finished, taken, actions := Pages(cutoff, cancelled, all, legacyBelow);
      res := RunResult(archived, batches, skipped, finished);
      CutoffExactly(hotDays, now);
      forall id | id in db.events
        ensures db.events[id].fixed.startedAt >= cutoff || !Movable(db, id) ==> Untouched(db, st.Value(), id)
        ensures archived == |all| && db.events[id].fixed.startedAt < cutoff && Movable(db, id) ==>
                  PutAway(st.z, db, st.Value(), id)
      {
        TakenEffect(st.z, db, st.Value(), cutoff, all, archived, id);
      }
    }
  }

  // ---------- what a run of the archiver means for the rest ----------

  lemma {:induction false} PlainIgnoresArchiver(p: Plain, actions: seq<Action>)
    requires forall a :: a in actions ==> ArchiverOnly(a)
    ensures PlainRun(p, actions) == p
    decreases |actions|
  {
    if actions != [] {
      var init, last := actions[..|actions| - 1], actions[|actions| - 1];
      assert forall a :: a in init ==> a in actions;
      PlainIgnoresArchiver(p, init);
      PlainIgnores(p, last);
    }
  }

  lemma PlainIgnores(p: Plain, a: Action)
    requires ArchiverOnly(a)
    ensures PlainStep(p, a) == p
  {
  }

  /** From any reachable state, whatever archivers do, stopped anywhere, no read changes. */
  lemma ArchivingIsInvisible(z: Compressor, s: Sys, p: Plain, actions: seq<Action>, s': Sys, id: Id)
    requires z.Lawful() && Reachable(z, s, p)
    requires (forall a :: a in actions ==> ArchiverOnly(a)) && s' == Protocol.Run(z, s, actions)
    requires id in s.db.events
    ensures id in s'.db.events && Hydrated(z, s'.db, id) == Hydrated(z, s.db, id)
  {
    var db :| ReachableFrom(z, db, s, p);
    forall i | 0 <= i < |actions|
      ensures !actions[i].Deliver?
    {
      assert ArchiverOnly(actions[i]);
    }
    ReachRun(z, db, s, p, actions);
    PlainIgnoresArchiver(p, actions);
    assert Reachable(z, s', p);
    ReadsRefinePlainStore(z, s, p);
    ReadsRefinePlainStore(z, s', p);
  }

  /** After a finished run the dry run counts nothing: a second run has nothing to move. */
  lemma NothingLeft(db: Db, hotDays: int, now: int)
    requires hotDays > 0 ==> Remain(db, Cutoff(hotDays, now), [])
    ensures CountArchivable(db, hotDays, now) == 0
  {
    if hotDays > 0 {
      CountIsCandidates(db, hotDays, now);
      assert forall c :: c !in Candidates(db, Cutoff(hotDays, now));
    }
  }
}
