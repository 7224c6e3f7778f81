/**
 restoreDay as the protocol's own steps: on a store nobody else touches, the sequential code is a run of the state
 machine with one restore in it, and what it leaves hot is what a read gave before.
 */
module RestoreRun {
  import opened BlobCodec
  import opened ArchiveDb
  import opened Protocol
  import opened ProtocolProofs
  import opened ProtocolTheorems
  import opened StoreClass

  /** The rows restore reads at its start. */
  function RowsOf(db: Db, day: Day, ids: seq<Id>): DayFile {
    map id | id in IdSet(ids) && id in FileOrEmpty(db, day) :: FileOrEmpty(db, day)[id]
  }

  function IdActions(z: Compressor, got: DayFile, id: Id): seq<Action> {
    [RestoreHot(0, id)] + if CanRestore(z, got, id) then [DropDayRow(0)] else []
  }

  function LoopActions(z: Compressor, got: DayFile, ids: seq<Id>): seq<Action> {
    if ids == [] then [] else LoopActions(z, got, ids[..|ids| - 1]) + IdActions(z, got, ids[|ids| - 1])
  }

  /** One restore, process 0: the rows read, then each id's hot commit and day-row delete, then its end. */
  function RestoreActions(z: Compressor, db: Db, day: Day, ids: seq<Id>): seq<Action> {
    [BeginRestore(0, day, IdSet(ids))] + LoopActions(z, RowsOf(db, day, ids), ids) + [Stop(0)]
  }

  lemma Beginning(z: Compressor, db: Db, day: Day, ids: seq<Id>, l: Id)
    requires MarkedOn(db, day, IdSet(ids))
    ensures var got := RowsOf(db, day, ids);
            Step(z, Sys(db, map[], l), BeginRestore(0, day, IdSet(ids))) == Alone(db, Restoring(day, got, got.Keys), l)
  {
    assert !Sys(db, map[], l).Archives();
  }

  lemma HotCommit(z: Compressor, db: Db, day: Day, got: DayFile, todo: set<Id>, id: Id, l: Id)
    requires id in todo && CanRestore(z, got, id)
    ensures Step(z, Alone(db, Restoring(day, got, todo), l), RestoreHot(0, id))
         == Alone(HotRestored(z, db, id, got[id]), Undeleted(day, got, todo - {id}, id), l)
  {
  }

  lemma RowDelete(z: Compressor, db: Db, day: Day, got: DayFile, todo: set<Id>, id: Id, l: Id)
    ensures Step(z, Alone(db, Undeleted(day, got, todo, id), l), DropDayRow(0))
         == Alone(DayRowDropped(db, day, id), Restoring(day, got, todo), l)
  {
  }

  lemma Skipping(z: Compressor, db: Db, day: Day, got: DayFile, todo: set<Id>, id: Id, l: Id)
    requires todo <= got.Keys && !CanRestore(z, got, id)
    ensures Step(z, Alone(db, Restoring(day, got, todo), l), RestoreHot(0, id))
         == Alone(db, Restoring(day, got, todo - {id}), l)
  {
    if id !in todo {
      assert todo - {id} == todo;
    }
  }

  function OneRestored(z: Compressor, db: Db, day: Day, got: DayFile, id: Id): Db {
    if CanRestore(z, got, id) then DayRowDropped(HotRestored(z, db, id, got[id]), day, id) else db
  }

  /** One turn of the loop. */
  lemma IdIsRun(z: Compressor, db: Db, day: Day, got: DayFile, todo: set<Id>, id: Id, l: Id)
    requires todo <= got.Keys && (id in got ==> id in todo)
    ensures Run(z, Alone(db, Restoring(day, got, todo), l), IdActions(z, got, id))
         == Alone(OneRestored(z, db, day, got, id), Restoring(day, got, todo - {id}), l)
  {
    var s := Alone(db, Restoring(day, got, todo), l);
    var s' := Alone(OneRestored(z, db, day, got, id), Restoring(day, got, todo - {id}), l);
    if CanRestore(z, got, id) {
      HotCommit(z, db, day, got, todo, id, l);
      RowDelete(z, HotRestored(z, db, id, got[id]), day, got, todo - {id}, id, l);
      var mid := Alone(HotRestored(z, db, id, got[id]), Undeleted(day, got, todo - {id}, id), l);
      Extend(z, s, [], RestoreHot(0, id), s, mid);
      Extend(z, s, [] + [RestoreHot(0, id)], DropDayRow(0), mid, s');
      assert [] + [RestoreHot(0, id)] == [RestoreHot(0, id)];
    } else {
      Skipping(z, db, day, got, todo, id, l);
      Extend(z, s, [], RestoreHot(0, id), s, s');
      assert [] + [RestoreHot(0, id)] == IdActions(z, got, id);
    }
  }

  lemma {:induction false} LoopIsRun(z: Compressor, db: Db, day: Day, got: DayFile, ids: seq<Id>, l: Id)
    requires Distinct(ids)
    ensures Run(z, Alone(db, Restoring(day, got, got.Keys), l), LoopActions(z, got, ids))
         == Alone(RestoredAll(z, db, day, got, ids), Restoring(day, got, got.Keys - IdSet(ids)), l)
    decreases |ids|
  {
    if ids == [] {
      assert got.Keys - IdSet(ids) == got.Keys;
    } else {
      var init, id := ids[..|ids| - 1], ids[|ids| - 1];
      LoopIsRun(z, db, day, got, init, l);
      assert ids == init + [id] && id !in init;
      var mid, todo := RestoredAll(z, db, day, got, init), got.Keys - IdSet(init);
      RunAppend(z, Alone(db, Restoring(day, got, got.Keys), l), LoopActions(z, got, init), IdActions(z, got, id));
      IdIsRun(z, mid, day, got, todo, id, l);
      assert todo - {id} == got.Keys - IdSet(ids);
    }
  }

  lemma Ending(z: Compressor, db: Db, pc: Proc, l: Id)
    ensures Step(z, Alone(db, pc, l), Stop(0)) == Sys(db, map[], l)
  {
    assert Alone(db, pc, l).procs - {0} == map[];
  }

  /** Reading only the rows asked for, or the whole file, makes no difference to the loop. */
  lemma {:induction false} OnlyTheirRows(z: Compressor, db: Db, start: Db, day: Day, all: seq<Id>, ids: seq<Id>)
    requires day in start.files && forall id :: id in ids ==> id in all
    ensures RestoredAll(z, db, day, RowsOf(start, day, all), ids) == RestoredAll(z, db, day, start.files[day], ids)
    decreases |ids|
  {
    if ids != [] {
      assert forall id :: id in ids[..|ids| - 1] ==> id in ids;
      OnlyTheirRows(z, db, start, day, all, ids[..|ids| - 1]);
      assert ids[|ids| - 1] in all;
    }
  }

  /** restoreDay is a run of the protocol. */
  lemma RestoreIsRun(z: Compressor, db: Db, day: Day, ids: seq<Id>, l: Id)
    requires day in db.files && Distinct(ids) && MarkedOn(db, day, IdSet(ids))
    ensures Run(z, Sys(db, map[], l), RestoreActions(z, db, day, ids))
         == Sys(RestoredAll(z, db, day, db.files[day], ids), map[], l)
  {
    var got, s := RowsOf(db, day, ids), Sys(db, map[], l);
    var begin, loop := [BeginRestore(0, day, IdSet(ids))], LoopActions(z, got, ids);
    var s1 := Alone(db, Restoring(day, got, got.Keys), l);
    var db2 := RestoredAll(z, db, day, got, ids);
    var s2 := Alone(db2, Restoring(day, got, got.Keys - IdSet(ids)), l);
    Beginning(z, db, day, ids, l);
    Extend(z, s, [], BeginRestore(0, day, IdSet(ids)), s, s1);
    assert [] + begin == begin;
    RunAppend(z, s, begin, loop);
    LoopIsRun(z, db, day, got, ids, l);
    Ending(z, db2, Restoring(day, got, got.Keys - IdSet(ids)), l);
    Extend(z, s, begin + loop, Stop(0), s2, Sys(db2, map[], l));
    OnlyTheirRows(z, db, db, day, ids, ids);
  }

  // ---------- restoring changes no read ----------

  lemma RowWhole(z: Compressor, db: Db, plain: Db, day: Day, id: Id)
    requires DbInv(z, db, plain) && id in db.events && db.RowIn(day, id).Some?
    ensures Whole(z, db.files[day], id)
    ensures db.events[id].WithBodies(Filled(z, db.files[day][id], db.events[id])) == plain.events[id]
  {
    assert RowInvAt(z, db, plain, id) && OnDay(db, day, id);
    FilledIsWhole(z, db.events[id], plain.events[id], db.MarkerOf(id), db.RowIn(day, id), db.files[day][id]);
  }

  /**
   From any reachable state restoreDay fails on no listed event whose marker names that day, leaves each such event
   hot as a read gave it before, and no event, listed or not, reads differently afterwards.
   */
  lemma RestoredIsHydrated(z: Compressor, s: Sys, p: Plain, day: Day, ids: seq<Id>, id: Id)
    requires z.Lawful() && Reachable(z, s, p) && day in s.db.files && id in s.db.events
    ensures var db' := RestoredAll(z, s.db, day, s.db.files[day], ids);
            && id in db'.events && Hydrated(z, db', id) == Hydrated(z, s.db, id)
            && (id in ids && id in s.db.markers && s.db.markers[id].day == day ==>
                  Whole(z, s.db.files[day], id) && id !in db'.markers && db'.events[id] == Hydrated(z, s.db, id))
  {
    ReadsRefinePlainStore(z, s, p);
    RowsWhole(z, s, p, day, id);
    RestoreEffect(z, s.db, day, ids, id);
    RestoredAt(z, s.db, day, s.db.files[day], ids, id);
    OtherDaysStay(z, s.db, day, s.db.files[day], ids);
    WholeExactly(z, s.db.files[day], id);
    var db' := RestoredAll(z, s.db, day, s.db.files[day], ids);
    if id in ids && Whole(z, s.db.files[day], id) {
      UnmarkedReadsHot(z, db', id);
    } else {
      ReadsTheSame(z, s.db, db', day, id);
    }
  }

  lemma RowsWhole(z: Compressor, s: Sys, p: Plain, day: Day, id: Id)
    requires z.Lawful() && Reachable(z, s, p) && day in s.db.files && id in s.db.events
    ensures id in p.db.events
    ensures s.db.RowIn(day, id).Some? ==>
              Whole(z, s.db.files[day], id)
              && s.db.events[id].WithBodies(Filled(z, s.db.files[day][id], s.db.events[id])) == p.db.events[id]
    ensures id in s.db.markers && s.db.markers[id].day == day ==> s.db.RowIn(day, id).Some?
  {
    ReachableInv(z, s, p);
    if s.db.RowIn(day, id).Some? {
      RowWhole(z, s.db, p.db, day, id);
    }
    assert RowInvAt(z, s.db, p.db, id);
  }

  lemma UnmarkedReadsHot(z: Compressor, db: Db, id: Id)
    requires id in db.events && id !in db.markers
    ensures Hydrated(z, db, id) == db.events[id]
  {
  }

  lemma ReadsTheSame(z: Compressor, db: Db, db': Db, day: Day, id: Id)
    requires id in db.events && LeftAlone(db, db', day, id) && db'.files - {day} == db.files - {day}
    ensures id in db'.events && Hydrated(z, db', id) == Hydrated(z, db, id)
  {
    if id in db.markers {
      SameOtherFile(db, db', day, db.markers[id].day, id);
    }
  }

  lemma SameOtherFile(db: Db, db': Db, day: Day, other: Day, id: Id)
    requires db'.RowIn(day, id) == db.RowIn(day, id) && db'.files - {day} == db.files - {day}
    ensures db'.RowIn(other, id) == db.RowIn(other, id)
  {
    if other != day {
      assert other in db.files <==> other in db.files - {day};
      assert other in db'.files <==> other in db'.files - {day};
      assert other in db.files ==> (db.files - {day})[other] == db.files[other];
      assert other in db'.files ==> (db'.files - {day})[other] == db'.files[other];
    }
  }
}
