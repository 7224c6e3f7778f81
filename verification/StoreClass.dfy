/**
 The store in the source's imperative form: one class whose methods rewrite the tables and the day files,
 each proved equal to the transaction of ArchiveDb that the protocol's invariant is about.
 */
module StoreClass {
  import opened Prelude
  import opened Events
  import opened BlobCodec
  import opened Merge
  import opened MergeSteps
  import opened ArchiveDb

  /** One event's bodies as read for a day file. */
  datatype ArchiveRow = ArchiveRow(id: Id, bodies: Bodies)

  function RowMap(rows: seq<ArchiveRow>): map<Id, Bodies> {
    if rows == [] then map[] else RowMap(rows[..|rows| - 1])[rows[|rows| - 1].id := rows[|rows| - 1].bodies]
  }

  predicate DistinctRows(rows: seq<ArchiveRow>) {
    forall i, j :: 0 <= i < j < |rows| ==> rows[i].id != rows[j].id
  }

  predicate Distinct(ids: seq<Id>) {
    forall i, j :: 0 <= i < j < |ids| ==> ids[i] != ids[j]
  }

  lemma {:induction false} RowMapHas(rows: seq<ArchiveRow>, id: Id)
    ensures id in RowMap(rows) <==> exists i :: 0 <= i < |rows| && rows[i].id == id
  {
    if rows != [] {
      var init, last := rows[..|rows| - 1], rows[|rows| - 1];
      RowMapHas(init, id);
      if i :| 0 <= i < |rows| && rows[i].id == id {
        assert i == |rows| - 1 || init[i] == rows[i];
      }
      if id in RowMap(rows) && id != last.id {
        var i :| 0 <= i < |init| && init[i].id == id;
        assert rows[i].id == id;
      }
    }
  }

  lemma {:induction false} RowMapAt(rows: seq<ArchiveRow>, i: nat)
    requires DistinctRows(rows) && i < |rows|
    ensures rows[i].id in RowMap(rows) && RowMap(rows)[rows[i].id] == rows[i].bodies
  {
    if i < |rows| - 1 {
      RowMapAt(rows[..|rows| - 1], i);
    }
  }

  lemma RowMapSnoc(rows: seq<ArchiveRow>, i: nat)
    requires DistinctRows(rows) && i < |rows|
    ensures RowMap(rows[..i + 1]) == RowMap(rows[..i])[rows[i].id := rows[i].bodies]
    ensures rows[i].id !in RowMap(rows[..i])
  {
    assert rows[..i + 1][..i] == rows[..i];
    RowMapHas(rows[..i], rows[i].id);
  }

  function CellOf(file: DayFile, id: Id): Option<DayRow> {
    if id in file then Some(file[id]) else None
  }

  function IdSet(ids: seq<Id>): set<Id> {
    set id | id in ids
  }

  function CountNonEmpty(masks: map<Id, Mask>, ids: seq<Id>): nat {
    if ids == [] then 0
    else
      var last := ids[|ids| - 1];
      CountNonEmpty(masks, ids[..|ids| - 1]) + (if last in masks && masks[last] != {} then 1 else 0)
  }

  function MarkedOne(markers: map<Id, Marker>, day: Day, id: Id, mask: Mask): map<Id, Marker> {
    markers[id := if id in markers then markers[id].(mask := markers[id].mask + mask) else Marker(day, mask)]
  }

  lemma MarkStep(events: map<Id, Event>, markers: map<Id, Marker>, day: Day, masks: map<Id, Mask>, id: Id, mask: Mask)
    requires id !in masks
    ensures mask == {} ==> ToMark(masks[id := mask]) == ToMark(masks)
    ensures mask == {} ==> MarkersWith(markers, day, masks[id := mask]) == MarkersWith(markers, day, masks)
    ensures mask == {} ==> EventsWithout(events, masks[id := mask]) == EventsWithout(events, masks)
    ensures mask != {} ==> ToMark(masks[id := mask]) == ToMark(masks) + {id}
    ensures mask != {} ==>
      MarkersWith(markers, day, masks[id := mask]) == MarkedOne(MarkersWith(markers, day, masks), day, id, mask)
    ensures mask != {} && id in events ==>
      EventsWithout(events, masks[id := mask])
      == EventsWithout(events, masks)[id := events[id].WithBodies(events[id].bodies - mask)]
  {
    var masks' := masks[id := mask];
    assert forall i :: i in ToMark(masks') <==> i in ToMark(masks) || (i == id && mask != {});
    assert id !in ToMark(masks);
  }

  lemma UpsertSnoc(z: Compressor, file: DayFile, rows: map<Id, Bodies>, id: Id, b: Bodies)
    requires id !in rows
    ensures var tx := UpsertedAll(z, file, rows);
            UpsertedAll(z, file, rows[id := b]) == tx[id := Upserted(CellOf(tx, id), EncodedRow(z, b))]
    ensures UpsertedAll(z, file, map[]) == file
  {
    assert UpsertedAll(z, file, map[]) == file;
  }

  predicate ReadsBack(file: DayFile, r: ArchiveRow) {
    && r.id in file && r.bodies.Keys <= file[r.id].mask
    && forall c :: c in r.bodies ==> c in file[r.id].lengths && file[r.id].lengths[c] == |r.bodies[c]|
  }

  /** The in-transaction verification cannot fail on a file that stores what it is given. */
  lemma UpsertVerifies(z: Compressor, file: DayFile, rows: seq<ArchiveRow>)
    requires DistinctRows(rows)
    ensures forall i :: 0 <= i < |rows| ==> ReadsBack(UpsertedAll(z, file, RowMap(rows)), rows[i])
  {
    forall i | 0 <= i < |rows|
      ensures ReadsBack(UpsertedAll(z, file, RowMap(rows)), rows[i])
    {
      RowMapAt(rows, i);
    }
  }

  /** The transaction's loop; an error leaves nothing behind. */
  method MarkEach(events: map<Id, Event>, markers: map<Id, Marker>, day: Day, file: DayFile, ids: seq<Id>)
    returns (tx: Result<(map<Id, Event>, map<Id, Marker>, nat)>)
    requires Distinct(ids)
    ensures tx.Ok? <==> ToMark(FileMasks(file, IdSet(ids))) <= events.Keys
    ensures tx.Ok? ==> tx.value == (EventsWithout(events, FileMasks(file, IdSet(ids))),
                                    MarkersWith(markers, day, FileMasks(file, IdSet(ids))),
                                    CountNonEmpty(FileMasks(file, IdSet(ids)), ids))
  {
    var masks := FileMasks(file, IdSet(ids));
    var txEvents, txMarkers := events, markers;
    var count: nat := 0;
    assert FileMasks(file, IdSet(ids[..0])) == map[] && ToMark(map[]) == {};
    for i := 0 to |ids|
      invariant ToMark(FileMasks(file, IdSet(ids[..i]))) <= events.Keys
      invariant txMarkers == MarkersWith(markers, day, FileMasks(file, IdSet(ids[..i])))
      invariant txEvents == EventsWithout(events, FileMasks(file, IdSet(ids[..i])))
      invariant count == CountNonEmpty(masks, ids[..i])
    {
      var id := ids[i];
      assert ids[..i + 1][..i] == ids[..i];
      MasksSnoc(file, ids, i);
      var mask := if id in file then file[id].mask else {};
      MarkStep(events, markers, day, FileMasks(file, IdSet(ids[..i])), id, mask);
      if mask != {} {
        if id !in events {
          // The marker's foreign key: the transaction rolls back.
          assert id in ToMark(masks);
          return Err("FOREIGN KEY constraint failed");
        }
        txMarkers := MarkedOne(txMarkers, day, id, mask);
        txEvents := txEvents[id := events[id].WithBodies(events[id].bodies - mask)];
        count := count + 1;
      }
    }
    assert ids[..|ids|] == ids;
    tx := Ok((txEvents, txMarkers, count));
  }

  lemma MasksSnoc(file: DayFile, ids: seq<Id>, i: nat)
    requires Distinct(ids) && i < |ids|
    ensures FileMasks(file, IdSet(ids[..i + 1]))
         == (if ids[i] in file then FileMasks(file, IdSet(ids[..i]))[ids[i] := file[ids[i]].mask] else FileMasks(file, IdSet(ids[..i])))
    ensures ids[i] !in FileMasks(file, IdSet(ids[..i]))
  {
    assert ids[..i + 1] == ids[..i] + [ids[i]];
    assert ids[i] !in ids[..i];
  }

  /** verifyDayRows: reads back what the upsert just wrote. */
  method VerifyDayRows(file: DayFile, rows: seq<ArchiveRow>) returns (ok: bool)
    ensures ok <==> forall i :: 0 <= i < |rows| ==> ReadsBack(file, rows[i])
  {
    ok := true;
    for i := 0 to |rows|
      invariant ok <==> forall k :: 0 <= k < i ==> ReadsBack(file, rows[k])
    {
      var r := rows[i];
      if r.id !in file || !(r.bodies.Keys <= file[r.id].mask) {
        ok := false;
      } else if exists c :: c in r.bodies && !(c in file[r.id].lengths && file[r.id].lengths[c] == |r.bodies[c]|) {
        ok := false;
      }
    }
  }

  lemma HotSnoc(events: map<Id, Event>, batch: seq<Id>, i: nat)
    requires i < |batch|
    ensures var id := batch[i];
            HotOf(events, IdSet(batch[..i + 1])) ==
            if id in events && events[id].bodies != map[] then HotOf(events, IdSet(batch[..i]))[id := events[id].bodies]
            else HotOf(events, IdSet(batch[..i]))
  {
    assert batch[..i + 1] == batch[..i] + [batch[i]];
  }

  method ReadRows(events: map<Id, Event>, batch: seq<Id>) returns (rows: seq<ArchiveRow>)
    requires Distinct(batch)
    ensures DistinctRows(rows) && RowMap(rows) == HotOf(events, IdSet(batch))
  {
    rows := [];
    for i := 0 to |batch|
      invariant DistinctRows(rows)
      invariant forall r :: r in rows ==> r.id in batch[..i]
      invariant RowMap(rows) == HotOf(events, IdSet(batch[..i]))
    {
      var id := batch[i];
      HotSnoc(events, batch, i);
      assert id !in batch[..i];
      if id in events && events[id].bodies != map[] {
        var row := ArchiveRow(id, events[id].bodies);
        assert (rows + [row])[..|rows|] == rows;
        rows := rows + [row];
      }
    }
    assert batch[..|batch|] == batch;
  }

  /** DELETE FROM events WHERE started_at < cutoff, with the cascade. */
  function Older(events: map<Id, Event>, cutoff: int): set<Id> {
    set id | id in events && events[id].fixed.startedAt < cutoff
  }

  lemma OlderSplit(events: map<Id, Event>, cutoff: int)
    ensures var kept := events - Older(events, cutoff);
            && kept == (map id | id in events && events[id].fixed.startedAt >= cutoff :: events[id])
            && events.Keys - kept.Keys == Older(events, cutoff)
            && |events| == |kept| + |Older(events, cutoff)|
  {
    var kept := events - Older(events, cutoff);
    assert events.Keys == kept.Keys + Older(events, cutoff) && kept.Keys !! Older(events, cutoff);
  }

  /** The events older than the cutoff and their markers are gone, and with them the listed rows that nothing needs. */
  ghost predicate Purged(db: Db, db': Db, cutoff: int, listing: seq<Day>) {
    EventsPurged(db, db', cutoff) && RowsPurged(db, db', listing)
  }

  ghost predicate EventsPurged(db: Db, db': Db, cutoff: int) {
    && (forall id :: id in db'.events <==> id in db.events && db.events[id].fixed.startedAt >= cutoff)
    && (forall id :: id in db'.events ==> db'.events[id] == db.events[id])
    && (forall id :: id in db.events ==> db'.MarkerOf(id) == if id in db'.events then db.MarkerOf(id) else None)
    && (forall id :: id !in db.events ==> db'.MarkerOf(id) == db.MarkerOf(id))
  }

  ghost predicate RowsPurged(db: Db, db': Db, listing: seq<Day>) {
    forall day, id :: db'.RowIn(day, id) ==
      if day in listing && id !in db'.markers && !(id in db'.events && db'.events[id].bodies != map[]) then None
      else db.RowIn(day, id)
  }

  lemma PurgeEffect(db: Db, cutoff: int, listing: seq<Day>)
    ensures Purged(db, FilesCollected(Deleted(db, Older(db.events, cutoff)), listing), cutoff, listing)
  {
    var purged := Deleted(db, Older(db.events, cutoff));
    OlderDeleted(db, cutoff);
    RowsCollected(purged, listing);
    SameFilesPurged(db, purged, FilesCollected(purged, listing), cutoff, listing);
  }

  lemma SameFilesPurged(db: Db, purged: Db, db': Db, cutoff: int, listing: seq<Day>)
    requires EventsPurged(db, purged, cutoff) && db'.events == purged.events && db'.markers == purged.markers
    requires RowsPurged(purged, db', listing) && purged.files == db.files
    ensures Purged(db, db', cutoff, listing)
  {
    forall day, id
      ensures purged.RowIn(day, id) == db.RowIn(day, id)
    {
    }
  }

  lemma OlderDeleted(db: Db, cutoff: int)
    ensures EventsPurged(db, Deleted(db, Older(db.events, cutoff)), cutoff)
  {
  }

  lemma RowsCollected(db: Db, listing: seq<Day>)
    ensures var db' := FilesCollected(db, listing);
            db'.events == db.events && db'.markers == db.markers && RowsPurged(db, db', listing)
  {
    FilesCollectedRows(db, listing, 0, 0);
    forall day, id
      ensures var db' := FilesCollected(db, listing);
              db'.RowIn(day, id) ==
                if day in listing && id !in db'.markers && !(id in db'.events && db'.events[id].bodies != map[]) then None
                else db.RowIn(day, id)
    {
      RowCollected(db, listing, day, id);
    }
  }

  lemma RowCollected(db: Db, listing: seq<Day>, day: Day, id: Id)
    ensures var db' := FilesCollected(db, listing);
            db'.RowIn(day, id) ==
              if day in listing && id !in db'.markers && !(id in db'.events && db'.events[id].bodies != map[]) then None
              else db.RowIn(day, id)
  {
    FilesCollectedRows(db, listing, day, id);
  }

  method Orphans(file: DayFile, events: map<Id, Event>, markers: map<Id, Marker>) returns (orphans: set<Id>)
    ensures orphans == set id | id in file && id !in markers && !(id in events && events[id].bodies != map[])
  {
    orphans := {};
    var todo := file.Keys;
    while todo != {}
      invariant todo <= file.Keys
      invariant orphans ==
        set id | id in file.Keys - todo && id !in markers && !(id in events && events[id].bodies != map[])
      decreases todo
    {
      var id :| id in todo;
      var live := id in markers;
      if id in events && events[id].bodies != map[] {
        live := true;
      }
      if !live {
        orphans := orphans + {id};
      }
      todo := todo - {id};
    }
  }

  /** `Filled`, with only the columns of `done` considered so far. */
  function FilledFrom(z: Compressor, row: DayRow, e: Event, done: Mask): Bodies {
    map c | c in e.bodies.Keys + row.mask && ((c in done && Fills(z, row, e, c)) || c in e.bodies) ::
      if c in done && Fills(z, row, e, c) then ReadCol(z, row, c).value else e.bodies[c]
  }

  /** The columns hydrate walks, in its order. */
  const COLUMNS: seq<Col> := [Req, Resp, Transcript]

  lemma FilledStep(z: Compressor, row: DayRow, e: Event, done: Mask, c: Col)
    ensures FilledFrom(z, row, e, done + {c}) ==
      if Fills(z, row, e, c) then FilledFrom(z, row, e, done)[c := ReadCol(z, row, c).value]
      else FilledFrom(z, row, e, done)
  {
  }

  lemma FilledBounds(z: Compressor, row: DayRow, e: Event, done: Mask)
    ensures FilledFrom(z, row, e, {}) == e.bodies
    ensures Req in done && Resp in done && Transcript in done ==> FilledFrom(z, row, e, done) == Filled(z, row, e)
  {
    if Req in done && Resp in done && Transcript in done {
      forall c: Col
        ensures c in FilledFrom(z, row, e, done) <==> c in Filled(z, row, e)
        ensures c in Filled(z, row, e) ==> FilledFrom(z, row, e, done)[c] == Filled(z, row, e)[c]
      {
        match c case Req => case Resp => case Transcript =>
      }
    }
  }

  method HydrateColumns(z: Compressor, row: DayRow, e: Event) returns (bodies: Bodies, loaded: nat)
    ensures bodies == Filled(z, row, e)
    ensures loaded > 0 <==> exists c :: c in row.mask && Fills(z, row, e, c)
  {
    bodies, loaded := e.bodies, 0;
    ghost var done: Mask := {};
    FilledBounds(z, row, e, {});
    for i := 0 to |COLUMNS|
      invariant forall k :: 0 <= k < i ==> COLUMNS[k] in done
      invariant bodies == FilledFrom(z, row, e, done)
      invariant loaded > 0 ==> exists c :: c in row.mask && Fills(z, row, e, c)
      invariant loaded == 0 ==> forall c :: c in done ==> !Fills(z, row, e, c)
    {
      var c := COLUMNS[i];
      FilledStep(z, row, e, done, c);
      if c in row.mask && ReadCol(z, row, c).Some? && e.Empty(c) {
        bodies := bodies[c := ReadCol(z, row, c).value];
        loaded := loaded + 1;
        assert Fills(z, row, e, c);
      }
      done := done + {c};
    }
    assert COLUMNS[0] in done && COLUMNS[1] in done && COLUMNS[2] in done;
    FilledBounds(z, row, e, done);
    if loaded == 0 {
      forall c | c in row.mask
        ensures !Fills(z, row, e, c)
      {
        match c case Req => case Resp => case Transcript =>
      }
    }
  }

  // ---------- one day's restore ----------

  predicate CanRestore(z: Compressor, got: DayFile, id: Id) {
    id in got && Restorable(z, got[id])
  }

  function Restorables(z: Compressor, got: DayFile, ids: seq<Id>): seq<Id> {
    if ids == [] then []
    else
      var last := ids[|ids| - 1];
      Restorables(z, got, ids[..|ids| - 1]) + (if CanRestore(z, got, last) then [last] else [])
  }

  function Unrestorables(z: Compressor, got: DayFile, ids: seq<Id>): seq<Id> {
    if ids == [] then []
    else
      var last := ids[|ids| - 1];
      Unrestorables(z, got, ids[..|ids| - 1]) + (if CanRestore(z, got, last) then [] else [last])
  }

  /** The ids in order, each: hot commit, then day-row delete; a row that cannot be restored is left alone. */
  function RestoredAll(z: Compressor, db: Db, day: Day, got: DayFile, ids: seq<Id>): Db {
    if ids == [] then db
    else
      var before, id := RestoredAll(z, db, day, got, ids[..|ids| - 1]), ids[|ids| - 1];
      if CanRestore(z, got, id) then DayRowDropped(HotRestored(z, before, id, got[id]), day, id) else before
  }

  // ---------- what a restore does to each event ----------

  /** The file holds this event's bodies, at least one, and every one of them decodes. */
  predicate Whole(z: Compressor, file: DayFile, id: Id) {
    id in file && file[id].mask != {} && forall c :: c in file[id].mask ==> ReadCol(z, file[id], c).Some?
  }

  lemma WholeExactly(z: Compressor, file: DayFile, id: Id)
    ensures CanRestore(z, file, id) <==> Whole(z, file, id)
  {
    if id in file && BadCols(z, file[id]) == {} {
      forall c | c in file[id].mask
        ensures ReadCol(z, file[id], c).Some?
      {
        assert c !in BadCols(z, file[id]);
      }
    }
  }

  /** One body column of `e` after it was offered the same column of a day row. */
  predicate ColumnBack(z: Compressor, row: DayRow, e: Event, e': Event, c: Col) {
    if !e.Empty(c) then c in e'.bodies && e'.bodies[c] == e.bodies[c]
    else if c in row.mask then c in e'.bodies && Some(e'.bodies[c]) == ReadCol(z, row, c)
    else (c in e'.bodies <==> c in e.bodies) && e'.Empty(c)
  }

  /** The event has its bodies hot again, nothing else of it changed, and its marker and day row are gone. */
  predicate BroughtBack(z: Compressor, db: Db, db': Db, day: Day, id: Id) {
    && (id in db'.events <==> id in db.events)
    && id !in db'.markers && db'.RowIn(day, id).None?
    && (id in db.events && db.RowIn(day, id).Some? ==>
          var e, e' := db.events[id], db'.events[id];
          e' == e.WithBodies(e'.bodies) && forall c :: ColumnBack(z, db.RowIn(day, id).value, e, e', c))
  }

  predicate LeftAlone(db: Db, db': Db, day: Day, id: Id) {
    && (id in db'.events <==> id in db.events) && (id in db.events ==> db'.events[id] == db.events[id])
    && db'.MarkerOf(id) == db.MarkerOf(id) && db'.RowIn(day, id) == db.RowIn(day, id)
  }

  lemma FilledAgain(z: Compressor, row: DayRow, e: Event)
    ensures Filled(z, row, e.WithBodies(Filled(z, row, e))) == Filled(z, row, e)
  {
  }

  lemma OneRestored(z: Compressor, db: Db, day: Day, row: DayRow, id: Id, other: Id)
    ensures var db' := DayRowDropped(HotRestored(z, db, id, row), day, id);
            && db'.events.Keys == db.events.Keys
            && (other != id ==> LeftAlone(db, db', day, other))
            && (other == id ==> id !in db'.markers && db'.RowIn(day, id).None?)
            && (other == id && id in db.events ==>
                  db'.events[id] == db.events[id].WithBodies(Filled(z, row, db.events[id])))
  {
  }

  /** After the whole loop, over ids in any order and any number of times. */
  lemma {:induction false} RestoredAt(z: Compressor, db: Db, day: Day, got: DayFile, ids: seq<Id>, id: Id)
    ensures var db' := RestoredAll(z, db, day, got, ids);
            && db'.events.Keys == db.events.Keys
            && (!(id in ids && CanRestore(z, got, id)) ==> LeftAlone(db, db', day, id))
            && (id in ids && CanRestore(z, got, id) ==> id !in db'.markers && db'.RowIn(day, id).None?)
            && (id in ids && CanRestore(z, got, id) && id in db.events ==>
                  db'.events[id] == db.events[id].WithBodies(Filled(z, got[id], db.events[id])))
    decreases |ids|
  {
    if ids != [] {
      var init, last := ids[..|ids| - 1], ids[|ids| - 1];
      assert ids == init + [last];
      RestoredAt(z, db, day, got, init, id);
      if CanRestore(z, got, last) {
        OneRestored(z, RestoredAll(z, db, day, got, init), day, got[last], last, id);
        if id == last && id in init && id in db.events {
          FilledAgain(z, got[id], db.events[id]);
        }
      }
    }
  }

  /** The other days' files stay as they are. */
  lemma {:induction false} OtherDaysStay(z: Compressor, db: Db, day: Day, got: DayFile, ids: seq<Id>)
    ensures RestoredAll(z, db, day, got, ids).files - {day} == db.files - {day}
    decreases |ids|
  {
    if ids != [] {
      OtherDaysStay(z, db, day, got, ids[..|ids| - 1]);
    }
  }

  lemma FilledByColumn(z: Compressor, row: DayRow, e: Event, c: Col)
    requires forall k :: k in row.mask ==> ReadCol(z, row, k).Some?
    ensures ColumnBack(z, row, e, e.WithBodies(Filled(z, row, e)), c)
  {
  }

  lemma RestoreEffect(z: Compressor, db: Db, day: Day, ids: seq<Id>, id: Id)
    requires day in db.files
    ensures var db' := RestoredAll(z, db, day, db.files[day], ids);
            if id in ids && Whole(z, db.files[day], id) then BroughtBack(z, db, db', day, id)
            else LeftAlone(db, db', day, id)
  {
    var got := db.files[day];
    RestoredAt(z, db, day, got, ids, id);
    WholeExactly(z, got, id);
    if Whole(z, got, id) {
      forall c: Col | id in db.events
        ensures ColumnBack(z, got[id], db.events[id], db.events[id].WithBodies(Filled(z, got[id], db.events[id])), c)
      {
        FilledByColumn(z, got[id], db.events[id], c);
      }
    }
  }

  lemma {:induction false} EachCounted(z: Compressor, got: DayFile, ids: seq<Id>)
    ensures |Restorables(z, got, ids)| + |Unrestorables(z, got, ids)| == |ids|
    ensures forall id :: id in Unrestorables(z, got, ids) <==> id in ids && !Whole(z, got, id)
    decreases |ids|
  {
    if ids != [] {
      var init, last := ids[..|ids| - 1], ids[|ids| - 1];
      EachCounted(z, got, init);
      WholeExactly(z, got, last);
      assert ids == init + [last];
    }
  }

  /** The rows and the files one pass deletes. */
  function CollectedCounts(db: Db, days: seq<Day>): (nat, nat) {
    if days == [] then (0, 0)
    else
      var before, mid, day := CollectedCounts(db, days[..|days| - 1]), FilesCollected(db, days[..|days| - 1]), days[|days| - 1];
      if day !in mid.files then before
      else (before.0 + |DeadRows(mid, day)|, before.1 + if day in FileCollected(mid, day).files then 0 else 1)
  }

  /** The rows of a day file with neither a marker nor a hot body. */
  function DeadRows(db: Db, day: Day): set<Id>
    requires day in db.files
  {
    set id | id in db.files[day] && !db.Live(id)
  }

  class Store {
    const z: Compressor
    var events: map<Id, Event>
    var byRequest: map<string, Id>
    var nextId: Id
    var markers: map<Id, Marker>
    var files: map<Day, DayFile>

    function Value(): Db
      reads this
    {
      Db(events, byRequest, nextId, markers, files)
    }

    constructor (z: Compressor)
      ensures this.z == z
      ensures Value() == Db(map[], map[], 1, map[], map[])
    {
      this.z := z;
      events, byRequest, nextId, markers, files := map[], map[], 1, map[], map[];
    }

    /** Inserts ev, or merges it into the row its request id already has. */
    method InsertOrMerge(ev: Event) returns (id: Id, merged: bool, mismatch: bool)
      modifies this
      ensures Value() == Delivery(old(Value()), ev)
      ensures merged ==> id in old(events) && mismatch == Mismatch(old(events)[id], ev)
      ensures !merged ==> id == old(nextId) && !mismatch
    {
      var rid := ev.fixed.requestId;
      merged, mismatch := false, false;
      if rid in byRequest && byRequest[rid] in events {
        id := byRequest[rid];
        var archived := if id in markers then markers[id].mask else {};
        var result;
        result, mismatch := MergeEvents(events[id], archived, ev);
        events := events[id := result.(toolNames := StoredToolNames(result, archived))];
        merged := true;
      } else {
        id := nextId;
        var row := ev.(promptTotal := ev.measured.tokens.PromptTotal());
        events := events[id := row.(toolNames := StoredToolNames(row, {}))];
        byRequest := byRequest[rid := id];
        nextId := nextId + 1;
      }
    }

    /** Step 1: the bodies of the batch's rows that still have any. */
    method ReadBodies(batch: seq<Id>) returns (rows: seq<ArchiveRow>)
      requires Distinct(batch)
      ensures DistinctRows(rows) && RowMap(rows) == HotOf(events, IdSet(batch))
    {
      rows := ReadRows(events, batch);
    }

    /** Steps 2 and 3: upsert, verify, commit. The verification never fails on a file that stores what it is given. */
    method WriteDay(day: Day, rows: seq<ArchiveRow>) returns (ok: bool)
      requires DistinctRows(rows)
      modifies this`files
      ensures ok && Value() == DayWritten(z, old(Value()), day, RowMap(rows))
    {
      ghost var before := files;
      var start := if day in files then files[day] else map[];
      var tx := start;
      assert UpsertedAll(z, start, map[]) == start;
      for i := 0 to |rows|
        invariant files == before
        invariant tx == UpsertedAll(z, start, RowMap(rows[..i]))
      {
        var r := rows[i];
        RowMapSnoc(rows, i);
        UpsertSnoc(z, start, RowMap(rows[..i]), r.id, r.bodies);
        tx := tx[r.id := Upserted(CellOf(tx, r.id), EncodedRow(z, r.bodies))];
      }
      assert rows[..|rows|] == rows;
      assert tx == UpsertedAll(z, FileOrEmpty(old(Value()), day), RowMap(rows));
      UpsertVerifies(z, start, rows);
      ok := VerifyDayRows(tx, rows);
      if ok {
        files := files[day := tx];
      }
    }

    /** Step 4: re-reads the file's masks, ORs them into the markers and NULLs exactly those columns. */
    method MarkAndClear(day: Day, ids: seq<Id>) returns (n: Result<nat>)
      requires Distinct(ids)
      modifies this`events, this`markers
      ensures day !in files ==> n.Err? && Value() == old(Value())
      ensures day in files ==>
        match MarkedAndCleared(old(Value()), day, FileMasks(files[day], IdSet(ids)))
        case None => n.Err? && Value() == old(Value())
        case Some(db') => Value() == db' && n == Ok(CountNonEmpty(FileMasks(files[day], IdSet(ids)), ids))
    {
      if day !in files {
        return Err("store: archive day file is missing");
      }
      var masks := FileMasks(files[day], IdSet(ids));
      var tx := MarkEach(events, markers, day, files[day], ids);
      match tx
      case Err(reason) => n := Err(reason);
      case Ok(done) =>
        events, markers := done.0, done.1;
        n := Ok(done.2);
    }

    /** gcFile: deletes the file's orphans, and the file once nothing is left in it. */
    method GcFile(day: Day) returns (deleted: nat, removed: bool)
      modifies this`files
      ensures Value() == FileCollected(old(Value()), day)
      ensures day in old(files) ==> deleted == |DeadRows(old(Value()), day)| && (removed <==> day !in files)
      ensures day !in old(files) ==> deleted == 0 && !removed
    {
      deleted, removed := 0, false;
      if day in files {
        var file := files[day];
        var orphans := Orphans(file, events, markers);
        var kept := file - orphans;
        deleted := |orphans|;
        assert orphans == DeadRows(Value(), day);
        assert kept == map id | id in file && Value().Live(id) :: file[id];
        if kept == map[] {
          files := files - {day};
          removed := true;
        } else {
          files := files[day := kept];
        }
      }
    }

    /** GCArchive: one pass over the day files the directory listing names. */
    method GCArchive(listing: seq<Day>) returns (rowsDeleted: nat, filesRemoved: nat)
      modifies this`files
      ensures Value() == FilesCollected(old(Value()), listing)
      ensures (rowsDeleted, filesRemoved) == CollectedCounts(old(Value()), listing)
    {
      rowsDeleted, filesRemoved := 0, 0;
      ghost var db := Value();
      for i := 0 to |listing|
        invariant Value() == FilesCollected(db, listing[..i])
        invariant (rowsDeleted, filesRemoved) == CollectedCounts(db, listing[..i])
      {
        var deleted, removed := GcFile(listing[i]);
        rowsDeleted := rowsDeleted + deleted;
        filesRemoved := filesRemoved + if removed then 1 else 0;
        assert listing[..i + 1][..i] == listing[..i];
      }
      assert listing[..|listing|] == listing;
    }

    /** PurgeOlderThan: deletes the old events, then the day rows that orphans. */
    method PurgeOlderThan(cutoff: int, listing: seq<Day>) returns (n: nat)
      modifies this
      ensures Value() == FilesCollected(Deleted(old(Value()), Older(old(events), cutoff)), listing)
      ensures n == |old(events)| - |events|
      ensures Purged(old(Value()), Value(), cutoff, listing)
    {
      var doomed := Older(events, cutoff);
      n := |doomed|;
      OlderSplit(events, cutoff);
      events := events - doomed;
      markers := markers - doomed;
      byRequest := map rid | rid in byRequest && byRequest[rid] !in doomed :: byRequest[rid];
      ghost var purged := Value();
      assert purged == Deleted(old(Value()), doomed);
      assert |purged.events| == |old(events)| - n;
      var _, _ := GCArchive(listing);
      FilesCollectedRows(purged, listing, 0, 0);
      PurgeEffect(old(Value()), cutoff, listing);
    }

    /** GetEvent with hydrate: each column the day row holds, only into an empty hot one; None for no such event. */
    method GetEvent(id: Id) returns (found: Option<Event>, notice: Notice)
      ensures found.Some? <==> id in events
      ensures id in events ==> found.value == Hydrated(z, Value(), id) && notice == HydrateNotice(z, Value(), id)
      ensures id in events && id !in markers ==> found == Some(events[id]) && notice == NotArchived
      ensures id in events && id in markers && Value().RowIn(markers[id].day, id).None? ==>
                found == Some(events[id]) && notice == Missing
    {
      if id !in events {
        return None, NotArchived;
      }
      var e := events[id];
      notice := NotArchived;
      if id in markers {
        var day := markers[id].day;
        if day !in files || id !in files[day] {
          return Some(e), Missing;
        }
        var row := files[day][id];
        var bodies, loaded := HydrateColumns(z, row, e);
        e := e.WithBodies(bodies);
        if loaded > 0 {
          notice := Loaded;
        } else if BadCols(z, row) != {} {
          notice := Missing;
        }
      }
      found := Some(e);
    }

    /** restoreDay, the inverse of step 4: hot columns and marker first, the day row only after. */
    method RestoreDay(day: Day, ids: seq<Id>, dryRun: bool) returns (restored: nat, failed: seq<Id>)
      modifies this`events, this`markers, this`files
      ensures day !in old(files) ==> Value() == old(Value()) && restored == 0 && failed == ids
      ensures day in old(files) ==> restored == |Restorables(z, old(files)[day], ids)|
                                    && failed == Unrestorables(z, old(files)[day], ids)
      ensures restored + |failed| == |ids|
      ensures day in old(files) ==> forall id :: id in failed <==> id in ids && !Whole(z, old(files)[day], id)
      ensures dryRun ==> Value() == old(Value())
      ensures !dryRun && day in old(files) ==>
        && (forall id :: id in ids && Whole(z, old(files)[day], id) ==> BroughtBack(z, old(Value()), Value(), day, id))
        && (forall id :: !(id in ids && Whole(z, old(files)[day], id)) ==> LeftAlone(old(Value()), Value(), day, id))
        && files - {day} == old(files) - {day}
      ensures !dryRun && day in old(files) ==> Value() == RestoredAll(z, old(Value()), day, old(files)[day], ids)
    {
      if day !in files {
        return 0, ids;
      }
      var got := files[day];
      ghost var db := Value();
      restored, failed := 0, [];
      for i := 0 to |ids|
        invariant restored == |Restorables(z, got, ids[..i])| && failed == Unrestorables(z, got, ids[..i])
        invariant Value() == if dryRun then db else RestoredAll(z, db, day, got, ids[..i])
      {
        var id := ids[i];
        assert ids[..i + 1][..i] == ids[..i];
        if id !in got || BadCols(z, got[id]) != {} || got[id].mask == {} {
          failed := failed + [id];
        } else if dryRun {
          restored := restored + 1;
        } else {
          if id in events {
            events := events[id := events[id].WithBodies(Filled(z, got[id], events[id]))];
          }
          markers := markers - {id};
          if day in files {
            files := files[day := files[day] - {id}];
          }
          restored := restored + 1;
        }
      }
      assert ids[..|ids|] == ids;
      EachCounted(z, got, ids);
      OtherDaysStay(z, db, day, got, ids);
      forall id
        ensures var db' := RestoredAll(z, db, day, got, ids);
                if id in ids && Whole(z, got, id) then BroughtBack(z, db, db', day, id) else LeftAlone(db, db', day, id)
      {
        RestoreEffect(z, db, day, ids, id);
      }
    }
  }
}
