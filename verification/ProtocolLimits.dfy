/**
 Why the protocol's assumptions are needed: the schedules it does not survive, each for every row it hits,
 and the exact conditions on bodies.
 */
module ProtocolLimits {
  import opened Prelude
  import opened Events
  import opened BlobCodec
  import opened Merge
  import opened ArchiveDb
  import opened Protocol
  import opened ProtocolProofs
  import opened ProtocolTheorems

  // ---------- archiving one row, start to end ----------

  function CopiedOut(z: Compressor, db: Db, id: Id): Db
    requires id in db.events
  {
    DayWritten(z, db, DayOf(db.events[id].fixed.startedAt), map[id := db.events[id].bodies])
  }

  function ClearedOut(db: Db, id: Id, mask: Mask): Option<Db>
    requires id in db.events
  {
    MarkedAndCleared(db, DayOf(db.events[id].fixed.startedAt), map[id := mask])
  }

  /** The mask of the row's day-file row. */
  function CopiedMask(db: Db, id: Id): Mask
    requires id in db.events
  {
    var row := db.RowIn(DayOf(db.events[id].fixed.startedAt), id);
    if row.Some? then row.value.mask else {}
  }

  lemma CopiedOneRow(z: Compressor, db: Db, id: Id)
    requires id in db.events && id !in db.markers && db.events[id].bodies != map[]
    ensures var copied := CopiedOut(z, db, id);
            && copied.events == db.events && copied.markers == db.markers
            && copied.RowIn(DayOf(db.events[id].fixed.startedAt), id).Some?
            && db.events[id].bodies.Keys <= CopiedMask(copied, id) && CopiedMask(copied, id) != {}
  {
    var c :| c in db.events[id].bodies;
    assert c in CopiedMask(CopiedOut(z, db, id), id);
  }

  lemma ClearedOneRow(db: Db, id: Id, mask: Mask)
    requires id in db.events && id !in db.markers && mask != {} && db.events[id].bodies.Keys <= mask
    ensures ClearedOut(db, id, mask).Some?
    ensures var cleared := ClearedOut(db, id, mask).value;
            && cleared.files == db.files && id in cleared.events && cleared.events[id].bodies == map[]
            && cleared.events[id].fixed == db.events[id].fixed
            && cleared.MarkerOf(id) == Some(Marker(DayOf(db.events[id].fixed.startedAt), mask))
  {
    var masks: map<Id, Mask> := map[id := mask];
    assert ToMark(masks) == {id};
    assert db.events[id].bodies - mask == map[];
  }

  /** The whole move of one row: copied, committed, marked and cleared. */
  function MovedOut(z: Compressor, db: Db, id: Id): Db
    requires id in db.events && id !in db.markers && db.events[id].bodies != map[]
  {
    CopiedOneRow(z, db, id);
    var copied := CopiedOut(z, db, id);
    ClearedOneRow(copied, id, CopiedMask(copied, id));
    ClearedOut(copied, id, CopiedMask(copied, id)).value
  }

  // ---------- GC with its two liveness queries in two states ----------

  /** Deletes the day's rows that had no marker in `first` and no hot body in `second`. */
  function SplitCollected(now: Db, day: Day, first: Db, second: Db): Db {
    if day !in now.files then now
    else now.(files := now.files[day := map id | id in now.files[day]
      && (id in first.markers || (id in second.events && second.events[id].bodies != map[])) :: now.files[day][id]])
  }

  /**
   Markers asked first, hot bodies second, and an archiver's hot commit in between: the row is in neither
   answer and the only copy of every one of its bodies goes. This hits every unmarked row with a hot body.
   */
  lemma SplitGcLosesEveryBody(z: Compressor, db: Db, id: Id)
    requires id in db.events && id !in db.markers && db.events[id].bodies != map[]
    ensures var copied, moved := CopiedOut(z, db, id), MovedOut(z, db, id);
            var after := SplitCollected(moved, DayOf(db.events[id].fixed.startedAt), copied, moved);
            id in after.events && Hydrated(z, after, id).bodies == map[] && HydrateNotice(z, after, id) == Missing
  {
    CopiedOneRow(z, db, id);
    var copied := CopiedOut(z, db, id);
    ClearedOneRow(copied, id, CopiedMask(copied, id));
  }

  /** Gone, or still with a hot body that has bytes. */
  ghost predicate GoneOrHot(db: Db, id: Id) {
    id < db.nextId && (id in db.events ==> exists c :: HasBytes(db.events[id], c))
  }

  predicate HasBytes(e: Event, c: Col) {
    c in e.bodies && |e.bodies[c]| > 0
  }

  /** No action but a hot commit of an archiver takes the last hot body of a row and leaves the row. */
  lemma GoneOrHotStep(z: Compressor, s: Sys, a: Action, id: Id)
    requires GoneOrHot(s.db, id) && !a.MarkAndClear?
    ensures GoneOrHot(Step(z, s, a).db, id)
  {
    StillGone(z, s, a, id);
    if id in s.db.events {
      var c :| HasBytes(s.db.events[id], c);
      StaysHot(z, s, a, id, c);
    }
  }

  lemma StillGone(z: Compressor, s: Sys, a: Action, id: Id)
    requires id < s.db.nextId
    ensures id < Step(z, s, a).db.nextId && (id !in s.db.events ==> id !in Step(z, s, a).db.events)
  {
  }

  lemma StaysHot(z: Compressor, s: Sys, a: Action, id: Id, c: Col)
    requires id < s.db.nextId && id in s.db.events && HasBytes(s.db.events[id], c) && !a.MarkAndClear?
    ensures var s' := Step(z, s, a); id in s'.db.events ==> HasBytes(s'.db.events[id], c)
  {
    match a
    case Deliver(ev) => DeliveryStaysHot(s.db, ev, id, c);
    case RestoreHot(q, i) => RestoreStaysHot(z, s, q, i, id, c);
    case _ => OtherStaysHot(z, s, a, id, c);
  }

  lemma DeliveryStaysHot(db: Db, ev: Event, id: Id, c: Col)
    requires id < db.nextId && id in db.events && HasBytes(db.events[id], c)
    ensures id in Delivery(db, ev).events ==> HasBytes(Delivery(db, ev).events[id], c)
  {
  }

  lemma RestoreStaysHot(z: Compressor, s: Sys, q: Pid, i: Id, id: Id, c: Col)
    requires id in s.db.events && HasBytes(s.db.events[id], c)
    ensures var s' := Step(z, s, RestoreHot(q, i)); id in s'.db.events ==> HasBytes(s'.db.events[id], c)
  {
  }

  lemma OtherStaysHot(z: Compressor, s: Sys, a: Action, id: Id, c: Col)
    requires id in s.db.events && HasBytes(s.db.events[id], c)
    requires !a.Deliver? && !a.RestoreHot? && !a.MarkAndClear?
    ensures var s' := Step(z, s, a); id in s'.db.events ==> HasBytes(s'.db.events[id], c)
  {
    if !a.Delete? && !a.Reprice? && !a.SetToolNames? {
      EventsUntouched(z, s, a);
    }
  }

  lemma EventsUntouched(z: Compressor, s: Sys, a: Action)
    requires !a.Deliver? && !a.Delete? && !a.Reprice? && !a.SetToolNames? && !a.RestoreHot? && !a.MarkAndClear?
    ensures Step(z, s, a).db.events == s.db.events
  {
  }

  lemma {:induction false} GoneOrHotRun(z: Compressor, s: Sys, more: seq<Action>, id: Id)
    requires GoneOrHot(s.db, id) && forall i :: 0 <= i < |more| ==> !more[i].MarkAndClear?
    ensures GoneOrHot(Run(z, s, more).db, id)
    decreases |more|
  {
    if more != [] {
      var init := more[..|more| - 1];
      assert forall i :: 0 <= i < |init| ==> !init[i].MarkAndClear?;
      GoneOrHotRun(z, s, init, id);
      GoneOrHotStep(z, Run(z, s, init), more[|more| - 1], id);
    }
  }

  lemma UnmarkedRowHasBytes(z: Compressor, db: Db, plain: Db, id: Id)
    requires id in db.events && id in plain.events && RowInvAt(z, db, plain, id) && id !in db.markers
    requires db.RowIn(DayOf(db.events[id].fixed.startedAt), id).Some?
    ensures exists c :: HasBytes(db.events[id], c)
  {
    var c :| c in db.RowIn(DayOf(db.events[id].fixed.startedAt), id).value.mask;
    assert HasBytes(db.events[id], c);
  }

  /**
   The code's order, markers first: over any run between the two queries, with any number of archivers,
   restores, merges and purges in it but no hot commit of an archiver, a day row that neither query finds alive
   belongs to an event that is gone. SplitGcLosesEveryBody is what one hot commit does instead.
   */
  lemma MarkersFirstIsSafe(z: Compressor, s: Sys, p: Plain, more: seq<Action>, s': Sys, day: Day, id: Id)
    requires z.Lawful() && Reachable(z, s, p) && s' == Run(z, s, more)
    requires s.db.RowIn(day, id).Some? && id !in s.db.markers
    requires forall i :: 0 <= i < |more| ==> !more[i].MarkAndClear?
    requires id in s'.db.events ==> s'.db.events[id].bodies == map[]
    ensures id !in s'.db.events
  {
    ReachableInv(z, s, p);
    assert OnDay(s.db, day, id);
    if id in s.db.events {
      assert RowInvAt(z, s.db, p.db, id);
      UnmarkedRowHasBytes(z, s.db, p.db, id);
    }
    GoneOrHotRun(z, s, more, id);
  }

  /** Asked the other way round, hot bodies before markers, not even a hot commit in between does harm. */
  lemma HotBodiesFirstIsSafe(z: Compressor, s: Sys, p: Plain, more: seq<Action>, day: Day, id: Id)
    requires z.Lawful() && Reachable(z, s, p)
    requires forall i :: 0 <= i < |more| ==> !more[i].RestoreHot?
    requires s.db.RowIn(day, id).Some? && !(id in s.db.events && s.db.events[id].bodies != map[])
    requires id !in Run(z, s, more).db.markers
    ensures id !in Run(z, s, more).db.events
  {
    ReachableInv(z, s, p);
    assert OnDay(s.db, day, id);
    if id in s.db.events {
      assert RowInvAt(z, s.db, p.db, id);
      RowOfLiveEvent(z, s.db, p.db, id);
    }
    MarkersPersist(z, s, more, id);
  }

  ghost predicate MarkedOrGone(db: Db, id: Id) {
    id < db.nextId && (id in db.events ==> id in db.markers)
  }

  lemma MarkerStep(z: Compressor, s: Sys, a: Action, id: Id)
    requires MarkedOrGone(s.db, id) && !a.RestoreHot?
    ensures MarkedOrGone(Step(z, s, a).db, id)
  {
  }

  lemma {:induction false} MarkersPersist(z: Compressor, s: Sys, more: seq<Action>, id: Id)
    requires MarkedOrGone(s.db, id)
    requires forall i :: 0 <= i < |more| ==> !more[i].RestoreHot?
    ensures MarkedOrGone(Run(z, s, more).db, id)
    decreases |more|
  {
    if more != [] {
      var init := more[..|more| - 1];
      assert forall i :: 0 <= i < |init| ==> !init[i].RestoreHot?;
      MarkersPersist(z, s, init, id);
      MarkerStep(z, Run(z, s, init), more[|more| - 1], id);
    }
  }

  // ---------- removing a file after its count ----------

  /**
   A file counted empty, then an archiver's write, mask read and hot commit, then the removal, or the hot commit
   after the removal: either way every body of every such row goes.
   */
  lemma RemovalRacingArchiverLosesEveryBody(z: Compressor, db: Db, id: Id)
    requires id in db.events && id !in db.markers && db.events[id].bodies != map[]
    requires FileOrEmpty(db, DayOf(db.events[id].fixed.startedAt)) == map[]
    ensures var day, copied := DayOf(db.events[id].fixed.startedAt), CopiedOut(z, db, id);
            var last := FileRemoved(MovedOut(z, db, id), day);
            var amid := ClearedOut(FileRemoved(copied, day), id, CopiedMask(copied, id));
            && id in last.events && Hydrated(z, last, id).bodies == map[] && HydrateNotice(z, last, id) == Missing
            && amid.Some? && id in amid.value.events && Hydrated(z, amid.value, id).bodies == map[]
            && HydrateNotice(z, amid.value, id) == Missing
  {
    CopiedOneRow(z, db, id);
    var copied := CopiedOut(z, db, id);
    ClearedOneRow(copied, id, CopiedMask(copied, id));
    ClearedOneRow(FileRemoved(copied, DayOf(db.events[id].fixed.startedAt)), id, CopiedMask(copied, id));
  }

  /**
   In any reachable state, removing a day's file changes what a read returns exactly when the row is marked for
   that day and some column of its marker is no longer hot.
   */
  lemma RemovalHarmlessExactly(z: Compressor, s: Sys, p: Plain, day: Day, id: Id)
    requires z.Lawful() && Reachable(z, s, p) && id in s.db.events
    ensures Hydrated(z, FileRemoved(s.db, day), id) == Hydrated(z, s.db, id)
       <==> (id in s.db.markers && s.db.markers[id].day == day ==> s.db.markers[id].mask <= s.db.events[id].bodies.Keys)
  {
    ReadsRefinePlainStore(z, s, p);
    ReachableInv(z, s, p);
    HydratedAfterRemoval(z, s.db, day, id);
    if id in s.db.markers {
      assert RowInvAt(z, s.db, p.db, id);
      WholeExactly(z, s.db.events[id], p.db.events[id], s.db.markers[id],
                   s.db.RowIn(DayOf(s.db.events[id].fixed.startedAt), id));
    }
  }

  lemma HydratedAfterRemoval(z: Compressor, db: Db, day: Day, id: Id)
    requires id in db.events
    ensures Hydrated(z, FileRemoved(db, day), id)
         == if id in db.markers && db.markers[id].day == day then db.events[id] else Hydrated(z, db, id)
  {
    if id in db.markers {
      var d := db.markers[id].day;
      assert FileRemoved(db, day).RowIn(d, id) == if d == day then None else db.RowIn(d, id);
    }
  }

  /** A marked row is whole in the hot database exactly when every column its marker names is there too. */
  lemma WholeExactly(z: Compressor, e: Event, pe: Event, marker: Marker, row: Option<DayRow>)
    requires RowInv(z, e, pe, Some(marker), row)
    ensures e == pe <==> marker.mask <= e.bodies.Keys
  {
    MaskInBodies(z, pe, marker, row);
    if marker.mask <= e.bodies.Keys {
      assert e.bodies == pe.bodies;
    }
  }

  lemma MaskInBodies(z: Compressor, pe: Event, marker: Marker, row: Option<DayRow>)
    requires FileInv(z, pe, Some(marker), row)
    ensures marker.mask <= pe.bodies.Keys
  {
    assert forall c :: c in row.value.mask ==> c in pe.bodies;
  }

  // ---------- restore against a live archiver ----------

  /**
   After restore's hot commit the row is hot, unmarked and still in its day file. An archiver that takes it
   from there finishes before restore deletes the day row: every body is gone, for every such row.
   */
  lemma RestoreRacingArchiverLosesEveryBody(z: Compressor, db: Db, id: Id)
    requires id in db.events && id !in db.markers && db.events[id].bodies != map[]
    ensures var after := DayRowDropped(MovedOut(z, db, id), DayOf(db.events[id].fixed.startedAt), id);
            id in after.events && Hydrated(z, after, id).bodies == map[] && HydrateNotice(z, after, id) == Missing
  {
    CopiedOneRow(z, db, id);
    var copied := CopiedOut(z, db, id);
    ClearedOneRow(copied, id, CopiedMask(copied, id));
  }

  // ---------- bodies ----------

  /** Archiving a column leaves the merge's presence test as it was exactly when the body is not empty. */
  lemma PresenceSurvivesExactlyNonEmpty(e: Event, c: Col)
    requires c in e.bodies
    ensures (Present(e, {}, c) <==> Present(e.WithBodies(e.bodies - {c}), {c}, c)) <==> |e.bodies[c]| > 0
  {
  }

  /** An archived body reads back exactly when it is within the blob bound. */
  lemma ReadsBackExactlyWithinBound(z: Compressor, b: Bodies, c: Col)
    requires z.Lawful() && c in b
    ensures ReadCol(z, EncodedRow(z, b), c) == Some(b[c]) <==> |b[c]| <= MAX_BLOB
  {
    RoundTrip(z, b[c]);
  }
}
