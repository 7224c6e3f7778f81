/**
 The body-archival protocol as a state machine: any number of archivers, restores and garbage collectors, each
 a process that can stop between any two of its steps, interleaved with deliveries, deletions, repricing and backfill.
 Every sequence of actions is a run; an action whose guard fails changes nothing.
 */
module Protocol {
  import opened Prelude
  import opened Events
  import opened BlobCodec
  import opened Merge
  import opened Billing
  import opened ArchiveDb

  type Pid = nat

  /** Where a process stands, with what it carries from one step to the next. */
  datatype Proc =
    | Chosen(day: Day, ids: set<Id>)                       // candidates selected
    | HasBodies(day: Day, rows: map<Id, Bodies>)           // step 1 done
    | Written(day: Day, ids: set<Id>)                      // steps 2 and 3 done: the day file is committed
    | HasMasks(day: Day, masks: map<Id, Mask>)             // step 4, before the hot commit
    | Restoring(day: Day, got: DayFile, todo: set<Id>)     // day rows read and decoded
    | Undeleted(day: Day, got: DayFile, todo: set<Id>, id: Id) // hot commit of `id` done, its day row still there
    | Listed(day: Day, todo: set<Id>, orphans: set<Id>)    // collecting: file listed, `todo` not asked about yet
    | Asked(day: Day, todo: set<Id>, orphans: set<Id>, chunk: set<Id>, marked: set<Id>) // markers asked, hot bodies not
    | Emptied(day: Day)                                    // collecting: no row counted, the file not removed yet
  {
    predicate IsArchiver() {
      Chosen? || HasBodies? || Written? || HasMasks?
    }

    predicate IsRestore() {
      Restoring? || Undeleted?
    }
  }

  /** `legacyBelow` bounds the ids of rows older than the req_tool_names column. */
  datatype Sys = Sys(db: Db, procs: map<Pid, Proc>, legacyBelow: Id)
  {
    predicate Archives() {
      exists p :: p in procs && procs[p].IsArchiver()
    }

    predicate Restores() {
      exists p :: p in procs && procs[p].IsRestore()
    }
  }

  datatype Action =
    | Deliver(ev: Event)
    | Delete(ids: set<Id>)
    | Reprice(id: Id, usd: real, source: CostSource)
    | SetToolNames(id: Id, names: string)
    | Choose(p: Pid, day: Day, ids: set<Id>)
    | ReadBodies(p: Pid)
    | WriteDay(p: Pid)
    | ReadMasks(p: Pid)
    | MarkAndClear(p: Pid)
    | BeginCollect(p: Pid, day: Day)
    | AskMarkers(p: Pid, chunk: set<Id>)
    | AskHot(p: Pid)
    | DeleteOrphans(p: Pid, chunk: set<Id>)
    | CountLeft(p: Pid)
    | RemoveFile(p: Pid)
    | BeginRestore(p: Pid, day: Day, ids: set<Id>)
    | RestoreHot(p: Pid, id: Id)
    | DropDayRow(p: Pid)
    | Stop(p: Pid)   // a crash, an error, or the normal end

  predicate AwaitsBackfill(e: Event) {
    Req in e.bodies && e.toolNames == None
  }

  predicate Archivable(db: Db, id: Id) {
    && id in db.events && db.events[id].bodies != map[]
    && !AwaitsBackfill(db.events[id])
    && id !in db.markers
  }

  /** A batch: candidates of one day. */
  predicate ChoosesFrom(db: Db, day: Day, ids: set<Id>) {
    forall id :: id in ids ==> Archivable(db, id) && DayOf(db.events[id].fixed.startedAt) == day
  }

  predicate MarkedOn(db: Db, day: Day, ids: set<Id>) {
    forall id :: id in ids ==> id in db.markers && db.markers[id].day == day
  }

  // ---------- the steps ----------

  function Ended(s: Sys, p: Pid): Sys {
    s.(procs := s.procs - {p})
  }

  /**
   The one thing that must not happen between a collector's two liveness queries: a hot commit that leaves an
   event it has just found unmarked without any hot body.
   */
  predicate Strips(s: Sys, pc: Proc)
    requires pc.HasMasks?
  {
    exists q :: q in s.procs && s.procs[q].Asked? && StripsAsked(s.db, pc.masks, s.procs[q])
  }

  predicate StripsAsked(db: Db, masks: map<Id, Mask>, gc: Proc)
    requires gc.Asked?
  {
    exists id :: id in gc.chunk && id !in gc.marked && id in db.events && StripsRow(db.events[id], masks, id)
  }

  predicate StripsRow(e: Event, masks: map<Id, Mask>, id: Id) {
    id in masks && masks[id] != {} && e.bodies - masks[id] == map[]
  }

  /**
   The one thing that must not happen between a collector's count and its removal of the file: an archiver
   reading from that file the mask of an event still there, which it would go on to mark and clear.
   */
  predicate ReadsVanishing(s: Sys, pc: Proc)
    requires pc.Written?
  {
    && (exists q :: q in s.procs && s.procs[q] == Emptied(pc.day))
    && pc.day in s.db.files
    && exists id :: id in pc.ids && id in s.db.files[pc.day] && id in s.db.events
  }

  function Archiving(s: Sys, a: Action): Sys
    requires a.Choose? || a.ReadBodies? || a.WriteDay? || a.ReadMasks? || a.MarkAndClear?
  {
    if s.Restores() then s
    else match a
      case Choose(p, day, ids) =>
        if p !in s.procs && ChoosesFrom(s.db, day, ids)
        then s.(procs := s.procs[p := Chosen(day, ids)]) else s
      case ReadBodies(p) =>
        if p in s.procs && s.procs[p].Chosen? then
          var rows := HotOf(s.db.events, s.procs[p].ids);
          if rows == map[] then Ended(s, p) else s.(procs := s.procs[p := HasBodies(s.procs[p].day, rows)])
        else s
      case ReadMasks(p) =>
        if p in s.procs && s.procs[p].Written? && !ReadsVanishing(s, s.procs[p]) then
          var day := s.procs[p].day;
          if day !in s.db.files then Ended(s, p)
          else s.(procs := s.procs[p := HasMasks(day, FileMasks(s.db.files[day], s.procs[p].ids))])
        else s
      case MarkAndClear(p) =>
        if p in s.procs && s.procs[p].HasMasks? && !Strips(s, s.procs[p]) then
          match MarkedAndCleared(s.db, s.procs[p].day, s.procs[p].masks)
          case None => Ended(s, p)
          case Some(db') => Ended(s.(db := db'), p)
        else s
      case _ => s
  }

  function DayWriting(z: Compressor, s: Sys, p: Pid): Sys {
    if !s.Restores() && p in s.procs && s.procs[p].HasBodies? then
      var pc := s.procs[p];
      s.(db := DayWritten(z, s.db, pc.day, pc.rows), procs := s.procs[p := Written(pc.day, pc.rows.Keys)])
    else s
  }

  function RestoreStep(z: Compressor, s: Sys, a: Action): Sys
    requires a.BeginRestore? || a.RestoreHot? || a.DropDayRow?
  {
    match a
    case BeginRestore(p, day, ids) =>
      if p !in s.procs && !s.Archives() && MarkedOn(s.db, day, ids) then
        var got := map id | id in ids && id in FileOrEmpty(s.db, day) :: FileOrEmpty(s.db, day)[id];
        s.(procs := s.procs[p := Restoring(day, got, got.Keys)])
      else s
    case RestoreHot(p, id) =>
      if p in s.procs && s.procs[p].Restoring? && id in s.procs[p].todo && id in s.procs[p].got then
        var pc := s.procs[p];
        if Restorable(z, pc.got[id]) then
          s.(db := HotRestored(z, s.db, id, pc.got[id]),
             procs := s.procs[p := Undeleted(pc.day, pc.got, pc.todo - {id}, id)])
        else s.(procs := s.procs[p := Restoring(pc.day, pc.got, pc.todo - {id})])
      else s
    case DropDayRow(p) =>
      if p in s.procs && s.procs[p].Undeleted? then
        var pc := s.procs[p];
        s.(db := DayRowDropped(s.db, pc.day, pc.id), procs := s.procs[p := Restoring(pc.day, pc.got, pc.todo)])
      else s
  }

  /** gcFile, query by query and chunk by chunk. */
  function Collecting(s: Sys, a: Action): Sys
    requires a.BeginCollect? || a.AskMarkers? || a.AskHot? || a.DeleteOrphans? || a.CountLeft? || a.RemoveFile?
  {
    match a
    case BeginCollect(p, day) =>
      if p !in s.procs && day in s.db.files
      then s.(procs := s.procs[p := Listed(day, s.db.files[day].Keys, {})]) else s
    case AskMarkers(p, chunk) =>
      if p in s.procs && s.procs[p].Listed? && chunk <= s.procs[p].todo then
        var pc := s.procs[p];
        s.(procs := s.procs[p := Asked(pc.day, pc.todo - chunk, pc.orphans, chunk, chunk * s.db.markers.Keys)])
      else s
    case AskHot(p) =>
      if p in s.procs && s.procs[p].Asked? then
        var pc := s.procs[p];
        var dead := pc.chunk - pc.marked - HotOf(s.db.events, pc.chunk).Keys;
        s.(procs := s.procs[p := Listed(pc.day, pc.todo, pc.orphans + dead)])
      else s
    case DeleteOrphans(p, chunk) =>
      if p in s.procs && s.procs[p].Listed? && s.procs[p].todo == {} && chunk <= s.procs[p].orphans then
        var pc := s.procs[p];
        s.(db := RowsDeleted(s.db, pc.day, chunk), procs := s.procs[p := Listed(pc.day, {}, pc.orphans - chunk)])
      else s
    case CountLeft(p) =>
      if p in s.procs && s.procs[p].Listed? && s.procs[p].todo == {} && s.procs[p].orphans == {} then
        var day := s.procs[p].day;
        if FileOrEmpty(s.db, day) == map[] then s.(procs := s.procs[p := Emptied(day)]) else Ended(s, p)
      else s
    case RemoveFile(p) =>
      if p in s.procs && s.procs[p].Emptied?
      then Ended(s.(db := FileRemoved(s.db, s.procs[p].day)), p) else s
  }

  function WithCost(db: Db, id: Id, usd: real, source: CostSource): Db {
    if id in db.events then db.(events := db.events[id := Repriced(db.events[id], usd, source)]) else db
  }

  /** The backfill lists only rows older than the column, and a row never loses its request body. */
  function WithToolNames(db: Db, legacyBelow: Id, id: Id, names: string): Db {
    if id in db.events && id < legacyBelow && Present(db.events[id], db.Archived(id), Req) then
      db.(events := db.events[id := db.events[id].(toolNames := Some(names))])
    else db
  }

  function Step(z: Compressor, s: Sys, a: Action): Sys {
    match a
    case Deliver(ev) => s.(db := Delivery(s.db, ev))
    case Delete(ids) => s.(db := Deleted(s.db, ids))
    case Reprice(id, usd, source) => s.(db := WithCost(s.db, id, usd, source))
    case SetToolNames(id, names) => s.(db := WithToolNames(s.db, s.legacyBelow, id, names))
    case WriteDay(p) => DayWriting(z, s, p)
    case Stop(p) => Ended(s, p)
    case BeginRestore(_, _, _) => RestoreStep(z, s, a)
    case RestoreHot(_, _) => RestoreStep(z, s, a)
    case DropDayRow(_) => RestoreStep(z, s, a)
    case BeginCollect(_, _) => Collecting(s, a)
    case AskMarkers(_, _) => Collecting(s, a)
    case AskHot(_) => Collecting(s, a)
    case DeleteOrphans(_, _) => Collecting(s, a)
    case CountLeft(_) => Collecting(s, a)
    case RemoveFile(_) => Collecting(s, a)
    case _ => Archiving(s, a)
  }

  function Run(z: Compressor, s: Sys, run: seq<Action>): Sys {
    if run == [] then s else Step(z, Run(z, s, run[..|run| - 1]), run[|run| - 1])
  }

  // ---------- the store that never archives ----------

  /** The same hot database without markers or day files, and the deliveries each new row absorbed. */
  datatype Plain = Plain(db: Db, log: map<Id, seq<Event>>, legacyBelow: Id)

  function PlainStep(p: Plain, a: Action): Plain {
    match a
    case Deliver(ev) =>
      var rid := ev.fixed.requestId;
      var id := if rid in p.db.byRequest && p.db.byRequest[rid] in p.db.events then p.db.byRequest[rid] else p.db.nextId;
      p.(db := Delivery(p.db, ev),
         log := if id in p.log then p.log[id := p.log[id] + [ev]]
                else if id == p.db.nextId then p.log[id := [ev]] else p.log)
    case Delete(ids) => p.(db := Deleted(p.db, ids), log := p.log - ids)
    case Reprice(id, usd, source) => p.(db := WithCost(p.db, id, usd, source))
    case SetToolNames(id, names) => p.(db := WithToolNames(p.db, p.legacyBelow, id, names))
    case _ => p
  }

  function PlainRun(p: Plain, run: seq<Action>): Plain {
    if run == [] then p else PlainStep(PlainRun(p, run[..|run| - 1]), run[|run| - 1])
  }

  // ---------- assumptions on inputs ----------

  /** Bodies a delivery carries: absent or non-empty, and within the archive's blob bound. */
  predicate BodiesOk(b: Bodies) {
    forall c :: c in b ==> 0 < |b[c]| <= MAX_BLOB
  }

  predicate DeliveriesOk(run: seq<Action>) {
    forall i :: 0 <= i < |run| && run[i].Deliver? ==> BodiesOk(run[i].ev.bodies)
  }

  /** A hot database as archival first finds it: no marker, no day file. */
  ghost predicate NeverArchived(db: Db) {
    && db.markers == map[] && db.files == map[]
    && (forall id :: id in db.events ==> id < db.nextId)
    && (forall id :: id in db.events ==> BodiesOk(db.events[id].bodies)
                                         && (db.events[id].toolNames.Some? ==> Req in db.events[id].bodies))
  }

  function Start(db: Db): Sys {
    Sys(db, map[], db.nextId)
  }

  function PlainStart(db: Db): Plain {
    Plain(db, map[], db.nextId)
  }

  // ---------- reachable states ----------

  /** The system, and beside it the store that never archives. */
  datatype Pair = Pair(s: Sys, p: Plain)

  ghost predicate Steps(z: Compressor, c: Pair, a: Action, c': Pair) {
    c'.s == Step(z, c.s, a) && c'.p == PlainStep(c.p, a)
  }

  /** `trace` is what the actions of `run` take the database `db` through. */
  ghost predicate IsTrace(z: Compressor, db: Db, run: seq<Action>, trace: seq<Pair>) {
    && |trace| == |run| + 1 && trace[0] == Pair(Start(db), PlainStart(db))
    && forall i :: 0 <= i < |run| ==> Steps(z, trace[i], run[i], trace[i + 1])
  }

  ghost predicate ReachedBy(z: Compressor, db: Db, run: seq<Action>, trace: seq<Pair>, s: Sys, p: Plain) {
    NeverArchived(db) && DeliveriesOk(run) && IsTrace(z, db, run, trace) && trace[|run|] == Pair(s, p)
  }

  /** Some interleaving of some actions leads from `db` to `s`, and the same deliveries without archival to `p`. */
  ghost predicate ReachableFrom(z: Compressor, db: Db, s: Sys, p: Plain) {
    exists run, trace :: ReachedBy(z, db, run, trace, s, p)
  }

  ghost predicate Reachable(z: Compressor, s: Sys, p: Plain) {
    exists db :: ReachableFrom(z, db, s, p)
  }

  // ---------- the invariant ----------

  /** A day row holds exactly the bytes the call has, for every column it claims. */
  ghost predicate RowHolds(z: Compressor, row: DayRow, bodies: Bodies) {
    && row.mask != {}
    && forall c :: c in row.mask ==> c in bodies && ReadCol(z, row, c) == Some(bodies[c])
  }

  /** The hot row is the never-archived row, less the columns its marker accounts for. */
  ghost predicate HotInv(e: Event, pe: Event, marker: Option<Marker>) {
    && e.WithBodies(pe.bodies) == pe
    && BodiesOk(pe.bodies)
    && (pe.toolNames.Some? ==> Req in pe.bodies)
    && (forall c :: c in e.bodies ==> c in pe.bodies && e.bodies[c] == pe.bodies[c])
    && (forall c :: c in pe.bodies && c !in e.bodies ==> marker.Some? && c in marker.value.mask)
  }

  /** The marker names the row's own day and stays within the day row's mask. */
  ghost predicate FileInv(z: Compressor, pe: Event, marker: Option<Marker>, row: Option<DayRow>) {
    && (marker.Some? ==> marker.value.day == DayOf(pe.fixed.startedAt)
                         && row.Some? && marker.value.mask <= row.value.mask)
    && (row.Some? ==> RowHolds(z, row.value, pe.bodies) && (Req in row.value.mask ==> pe.toolNames.Some?))
  }

  /** One event: its hot row, the never-archived row, its marker, and its row in its own day's file. */
  ghost predicate RowInv(z: Compressor, e: Event, pe: Event, marker: Option<Marker>, row: Option<DayRow>) {
    HotInv(e, pe, marker) && FileInv(z, pe, marker, row)
  }

  ghost predicate RowInvAt(z: Compressor, db: Db, plain: Db, id: Id)
    requires id in db.events && id in plain.events
  {
    RowInv(z, db.events[id], plain.events[id], db.MarkerOf(id), db.RowIn(DayOf(db.events[id].fixed.startedAt), id))
  }

  /** A live event's rows are in the file of its own day; an id once given is never given again. */
  ghost predicate OnDay(db: Db, day: Day, id: Id) {
    id < db.nextId && (id in db.events ==> day == DayOf(db.events[id].fixed.startedAt))
  }

  /** The two stores have the same rows, and ids, markers and day rows are where they belong. */
  ghost predicate Shape(db: Db, plain: Db) {
    && plain.markers == map[]
    && db.events.Keys == plain.events.Keys && db.byRequest == plain.byRequest && db.nextId == plain.nextId
    && (forall id :: id in db.events ==> id < db.nextId)
    && (forall id :: id in db.markers ==> id in db.events)
    && (forall day, id :: db.RowIn(day, id).Some? ==> OnDay(db, day, id))
  }

  ghost predicate RowsInv(z: Compressor, db: Db, plain: Db)
    requires db.events.Keys == plain.events.Keys
  {
    forall id :: id in db.events ==> RowInvAt(z, db, plain, id)
  }

  ghost predicate DbInv(z: Compressor, db: Db, plain: Db) {
    Shape(db, plain) && RowsInv(z, db, plain)
  }

  /** What a process may still rely on, for one id it carries and whose event is still there. */
  ghost predicate CarriesOk(z: Compressor, db: Db, plain: Db, pc: Proc, id: Id)
    requires id in db.events && id in plain.events
  {
    var pe := plain.events[id];
    match pc
    case Chosen(day, ids) => id in ids ==> !AwaitsBackfill(db.events[id])
    case HasBodies(day, rows) =>
      id in rows ==> rows[id] != map[] && (Req in rows[id] ==> pe.toolNames.Some?)
                     && forall c :: c in rows[id] ==> c in pe.bodies && rows[id][c] == pe.bodies[c]
    case Written(day, ids) => true
    case HasMasks(day, masks) =>
      id in masks ==> db.RowIn(day, id).Some? && masks[id] <= db.RowIn(day, id).value.mask
    case Restoring(day, got, todo) => id in got ==> GotOk(z, db, pe, id, got[id])
    case Undeleted(day, got, todo, done) =>
      (id in got ==> GotOk(z, db, pe, id, got[id])) && (id == done ==> id !in db.markers)
    case Listed(day, todo, orphans) => id !in orphans && (id in todo ==> pe.bodies != map[])
    case Asked(day, todo, orphans, chunk, marked) =>
      && id !in orphans && (id in todo ==> pe.bodies != map[])
      && (id in chunk && id !in marked ==> db.events[id].bodies != map[])
    case Emptied(day) => DayOf(db.events[id].fixed.startedAt) == day ==> id !in db.markers
  }

  ghost predicate GotOk(z: Compressor, db: Db, pe: Event, id: Id, row: DayRow) {
    RowHolds(z, row, pe.bodies) && db.Archived(id) <= row.mask
  }

  function CarriedIds(pc: Proc): set<Id> {
    match pc
    case Chosen(_, ids) => ids
    case HasBodies(_, rows) => rows.Keys
    case Written(_, ids) => ids
    case HasMasks(_, masks) => masks.Keys
    case Restoring(_, got, _) => got.Keys
    case Undeleted(_, got, _, id) => got.Keys + {id}
    case Listed(_, todo, orphans) => todo + orphans
    case Asked(_, todo, orphans, chunk, _) => todo + orphans + chunk
    case Emptied(_) => {}
  }

  ghost predicate ProcInv(z: Compressor, db: Db, plain: Db, pc: Proc)
    requires db.events.Keys == plain.events.Keys
  {
    && (forall id :: id in CarriedIds(pc) ==> OnDay(db, pc.day, id))
    && (forall id :: id in db.events ==> CarriesOk(z, db, plain, pc, id))
  }

  /** Restores and archivers are never under way together. */
  predicate Exclusive(procs: map<Pid, Proc>) {
    forall p, q :: p in procs && q in procs && procs[p].IsRestore() ==> !procs[q].IsArchiver()
  }

  /** No archiver holds, from a file about to be removed, the mask of an event still there. */
  predicate NoneFromEmptied(db: Db, procs: map<Pid, Proc>) {
    forall p, q :: p in procs && q in procs && procs[p].Emptied? ==> HoldsNone(db, procs[p].day, procs[q])
  }

  predicate HoldsNone(db: Db, day: Day, pc: Proc) {
    pc.HasMasks? && pc.day == day ==> pc.masks.Keys !! db.events.Keys
  }

  ghost predicate ProcsInv(z: Compressor, db: Db, plain: Db, procs: map<Pid, Proc>)
    requires db.events.Keys == plain.events.Keys
  {
    forall q :: q in procs ==> ProcInv(z, db, plain, procs[q])
  }

  ghost predicate Inv(z: Compressor, s: Sys, p: Plain) {
    && DbInv(z, s.db, p.db)
    && s.legacyBelow == p.legacyBelow
    && Exclusive(s.procs) && NoneFromEmptied(s.db, s.procs)
    && ProcsInv(z, s.db, p.db, s.procs)
  }
}
