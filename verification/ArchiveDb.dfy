/**
 The two databases archival moves bodies between, as values, and each transaction on them as a function:
 the hot database (`events`, its request_id index, `body_archive` markers) and the per-day body files.
 */
module ArchiveDb {
  import opened Prelude
  import opened Events
  import opened BlobCodec
  import opened Merge

  type Id = nat
  type Day = int
  type Bodies = map<Col, Bytes>

  const NANOS_PER_DAY: int := 86400000000000

  /** The UTC day, counted from 1970-01-01, that names the file of a row started at this instant. */
  function DayOf(startedAt: int): Day {
    startedAt / NANOS_PER_DAY
  }

  /** A day is 24 hours of nanoseconds, before 1970 too. */
  lemma DayExactly(startedAt: int, day: Day)
    ensures DayOf(startedAt) == day
       <==> day * (24 * 3600 * 1000000000) <= startedAt < (day + 1) * (24 * 3600 * 1000000000)
  {
  }

  /** One day-file row: the mask and, per column, three nullable cells. */
  datatype DayRow = DayRow(mask: Mask, codecs: map<Col, Codec>, lengths: map<Col, int>, blobs: map<Col, Bytes>)

  type DayFile = map<Id, DayRow>

  datatype Marker = Marker(day: Day, mask: Mask)

  datatype Db = Db(events: map<Id, Event>, byRequest: map<string, Id>, nextId: Id,
                   markers: map<Id, Marker>, files: map<Day, DayFile>)
  {
    function MarkerOf(id: Id): Option<Marker> {
      if id in markers then Some(markers[id]) else None
    }

    function Archived(id: Id): Mask {
      if id in markers then markers[id].mask else {}
    }

    function RowIn(day: Day, id: Id): Option<DayRow> {
      if day in files && id in files[day] then Some(files[day][id]) else None
    }

    /** Marked, or holding a hot body: what GC must not collect. */
    predicate Live(id: Id) {
      id in markers || (id in events && events[id].bodies != map[])
    }
  }

  // ---------- the hot database ----------

  /** insertOrMerge and its commit: the row with this request id absorbs `ev`, or `ev` becomes a new row. */
  function Delivery(db: Db, ev: Event): Db {
    var rid := ev.fixed.requestId;
    if rid in db.byRequest && db.byRequest[rid] in db.events then
      var id := db.byRequest[rid];
      db.(events := db.events[id := Merged(db.events[id], db.Archived(id), ev)])
    else
      db.(events := db.events[db.nextId := Inserted(ev)],
          byRequest := db.byRequest[rid := db.nextId],
          nextId := db.nextId + 1)
  }

  /** Any DELETE FROM events; the foreign key cascades to the markers. */
  function Deleted(db: Db, ids: set<Id>): Db {
    db.(events := db.events - ids,
        markers := db.markers - ids,
        byRequest := map rid | rid in db.byRequest && db.byRequest[rid] !in ids :: db.byRequest[rid])
  }

  function ToMark(masks: map<Id, Mask>): set<Id> {
    set id | id in masks && masks[id] != {}
  }

  /** Each marker gains its event's mask; the day of a marker already there stays. */
  function MarkersWith(markers: map<Id, Marker>, day: Day, masks: map<Id, Mask>): map<Id, Marker> {
    map id | id in markers.Keys + ToMark(masks) ::
      if id !in ToMark(masks) then markers[id]
      else if id in markers then markers[id].(mask := markers[id].mask + masks[id])
      else Marker(day, masks[id])
  }

  /** Each event's columns under its mask become NULL. */
  function EventsWithout(events: map<Id, Event>, masks: map<Id, Mask>): map<Id, Event> {
    map id | id in events ::
      if id in ToMark(masks) then events[id].WithBodies(events[id].bodies - masks[id]) else events[id]
  }

  /** Step 4 of the archiver; None when the marker of a deleted event violates its foreign key. */
  function MarkedAndCleared(db: Db, day: Day, masks: map<Id, Mask>): Option<Db> {
    if !(ToMark(masks) <= db.events.Keys) then None
    else Some(db.(markers := MarkersWith(db.markers, day, masks), events := EventsWithout(db.events, masks)))
  }

  /** The non-NULL columns of those of `ids` that have any: what step 1 of the archiver reads. */
  function HotOf(events: map<Id, Event>, ids: set<Id>): map<Id, Bodies> {
    map id | id in ids && id in events && events[id].bodies != map[] :: events[id].bodies
  }

  // ---------- the day files ----------

  /** The masks of those of `ids` that have a row in the file. */
  function FileMasks(file: DayFile, ids: set<Id>): map<Id, Mask> {
    map id | id in ids && id in file :: file[id].mask
  }

  function EncodedRow(z: Compressor, b: Bodies): DayRow {
    DayRow(b.Keys, map c | c in b :: Encode(z, b[c]).codec,
                   map c | c in b :: Encode(z, b[c]).length,
                   map c | c in b :: Encode(z, b[c]).data)
  }

  /** The monotone upsert: the mask ORs and every cell is COALESCE(excluded, stored). */
  function Upserted(stored: Option<DayRow>, row: DayRow): DayRow {
    match stored
    case None => row
    case Some(prior) => DayRow(prior.mask + row.mask, prior.codecs + row.codecs,
                             prior.lengths + row.lengths, prior.blobs + row.blobs)
  }

  function UpsertedAll(z: Compressor, file: DayFile, rows: map<Id, Bodies>): DayFile {
    map id | id in file.Keys + rows.Keys ::
      if id in rows then Upserted(if id in file then Some(file[id]) else None, EncodedRow(z, rows[id]))
      else file[id]
  }

  function FileOrEmpty(db: Db, day: Day): DayFile {
    if day in db.files then db.files[day] else map[]
  }

  function DayWritten(z: Compressor, db: Db, day: Day, rows: map<Id, Bodies>): Db {
    db.(files := db.files[day := UpsertedAll(z, FileOrEmpty(db, day), rows)])
  }

  /** One column of a day row; None when a cell is missing or the blob does not decode. */
  function ReadCol(z: Compressor, row: DayRow, c: Col): Option<Bytes> {
    if c !in row.codecs || c !in row.lengths then None
    else Decode(z, Blob(row.codecs[c], row.lengths[c], if c in row.blobs then row.blobs[c] else []))
  }

  /** The columns a day row claims but cannot supply. */
  function BadCols(z: Compressor, row: DayRow): Mask {
    set c | c in row.mask && ReadCol(z, row, c).None?
  }

  predicate Fills(z: Compressor, row: DayRow, e: Event, c: Col) {
    c in row.mask && ReadCol(z, row, c).Some? && e.Empty(c)
  }

  /** The row's bodies with every decodable archived column put into an empty hot one. */
  function Filled(z: Compressor, row: DayRow, e: Event): Bodies {
    map c | c in e.bodies.Keys + row.mask && (Fills(z, row, e, c) || c in e.bodies) ::
      if Fills(z, row, e, c) then ReadCol(z, row, c).value else e.bodies[c]
  }

  // ---------- reads ----------

  datatype Notice = NotArchived | Loaded | Missing

  /** GetEvent's row after hydrate. */
  function Hydrated(z: Compressor, db: Db, id: Id): Event
    requires id in db.events
  {
    var e := db.events[id];
    match db.MarkerOf(id)
    case None => e
    case Some(marker) =>
      match db.RowIn(marker.day, id)
      case None => e
      case Some(row) => e.WithBodies(Filled(z, row, e))
  }

  /** The bodies_archived flag that goes with it. */
  function HydrateNotice(z: Compressor, db: Db, id: Id): Notice
    requires id in db.events
  {
    var e := db.events[id];
    match db.MarkerOf(id)
    case None => NotArchived
    case Some(marker) =>
      match db.RowIn(marker.day, id)
      case None => Missing
      case Some(row) =>
        if exists c :: c in row.mask && Fills(z, row, e, c) then Loaded
        else if BadCols(z, row) != {} then Missing
        else NotArchived
  }

  // ---------- garbage collection and restore ----------

  function RowsDeleted(db: Db, day: Day, ids: set<Id>): Db {
    if day in db.files then db.(files := db.files[day := db.files[day] - ids]) else db
  }

  function FileRemoved(db: Db, day: Day): Db {
    db.(files := db.files - {day})
  }

  /** gcFile on a store nobody else touches. */
  function FileCollected(db: Db, day: Day): Db {
    if day !in db.files then db
    else
      var kept := map id | id in db.files[day] && db.Live(id) :: db.files[day][id];
      db.(files := if kept == map[] then db.files - {day} else db.files[day := kept])
  }

  lemma CollectedRow(db: Db, file: Day, day: Day, id: Id)
    ensures FileCollected(db, file).RowIn(day, id)
         == (if day == file && !db.Live(id) then None else db.RowIn(day, id))
  {
    if day == file && day in db.files && db.Live(id) && id in db.files[day] {
      var kept := map i | i in db.files[day] && db.Live(i) :: db.files[day][i];
      assert id in kept;
    }
  }

  /** One pass over the listed day files. */
  function FilesCollected(db: Db, days: seq<Day>): Db {
    if days == [] then db else FileCollected(FilesCollected(db, days[..|days| - 1]), days[|days| - 1])
  }

  lemma {:induction false} FilesCollectedRows(db: Db, days: seq<Day>, day: Day, id: Id)
    ensures var db' := FilesCollected(db, days);
            && db'.events == db.events && db'.markers == db.markers
            && db'.RowIn(day, id) == (if day in days && !db.Live(id) then None else db.RowIn(day, id))
    decreases |days|
  {
    if days != [] {
      var init, last := days[..|days| - 1], days[|days| - 1];
      FilesCollectedRows(db, init, day, id);
      assert days == init + [last];
      var mid := FilesCollected(db, init);
      assert mid.Live(id) == db.Live(id);
      CollectedRow(mid, last, day, id);
    }
  }

  predicate Restorable(z: Compressor, row: DayRow) {
    row.mask != {} && BadCols(z, row) == {}
  }

  /** Restore's hot transaction: the row's columns into empty hot ones, and the marker gone. */
  function HotRestored(z: Compressor, db: Db, id: Id, row: DayRow): Db {
    db.(events := if id in db.events then db.events[id := db.events[id].WithBodies(Filled(z, row, db.events[id]))]
                  else db.events,
        markers := db.markers - {id})
  }

  function DayRowDropped(db: Db, day: Day, id: Id): Db {
    if day in db.files then db.(files := db.files[day := db.files[day] - {id}]) else db
  }
}
