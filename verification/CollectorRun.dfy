/**
 gcFile and GCArchive as the protocol's own steps: on a store nobody else touches, the sequential code is a run
 of the state machine with one collector in it.
 */
module CollectorRun {
  import opened BlobCodec
  import opened ArchiveDb
  import opened Protocol
  import opened ProtocolProofs
  import opened StoreClass

  /** One collector, process 0, taking one day file through: every row asked about, the orphans deleted. */
  function CollectActions(db: Db, day: Day): seq<Action>
    requires day in db.files
  {
    [BeginCollect(0, day), AskMarkers(0, db.files[day].Keys), AskHot(0), DeleteOrphans(0, DeadRows(db, day)),
     CountLeft(0), RemoveFile(0)]
  }

  lemma Listing(z: Compressor, db: Db, day: Day, l: Id)
    requires day in db.files
    ensures Step(z, Sys(db, map[], l), BeginCollect(0, day)) == Alone(db, Listed(day, db.files[day].Keys, {}), l)
  {
  }

  lemma Asking(z: Compressor, db: Db, day: Day, ids: set<Id>, l: Id)
    ensures Step(z, Alone(db, Listed(day, ids, {}), l), AskMarkers(0, ids))
         == Alone(db, Asked(day, {}, {}, ids, ids * db.markers.Keys), l)
  {
    assert ids - ids == {};
  }

  lemma Judging(z: Compressor, db: Db, day: Day, l: Id)
    requires day in db.files
    ensures var ids := db.files[day].Keys;
            Step(z, Alone(db, Asked(day, {}, {}, ids, ids * db.markers.Keys), l), AskHot(0))
            == Alone(db, Listed(day, {}, DeadRows(db, day)), l)
  {
    var ids := db.files[day].Keys;
    assert {} + (ids - ids * db.markers.Keys - HotOf(db.events, ids).Keys) == DeadRows(db, day);
  }

  lemma Deleting(z: Compressor, db: Db, day: Day, dead: set<Id>, l: Id)
    ensures Step(z, Alone(db, Listed(day, {}, dead), l), DeleteOrphans(0, dead))
         == Alone(RowsDeleted(db, day, dead), Listed(day, {}, {}), l)
  {
    assert dead - dead == {};
  }

  /** The last two steps: the count, and the removal when nothing is left. */
  lemma Finishing(z: Compressor, db: Db, day: Day, l: Id)
    ensures var counted := Step(z, Alone(db, Listed(day, {}, {}), l), CountLeft(0));
            Step(z, counted, RemoveFile(0))
            == Sys(if FileOrEmpty(db, day) == map[] then FileRemoved(db, day) else db, map[], l)
  {
    var s := Alone(db, Listed(day, {}, {}), l);
    assert s.procs - {0} == map[];
    if FileOrEmpty(db, day) == map[] {
      assert Alone(db, Emptied(day), l).procs - {0} == map[];
    }
  }

  lemma CollectedBySteps(db: Db, day: Day)
    requires day in db.files
    ensures var rest := RowsDeleted(db, day, DeadRows(db, day));
            FileCollected(db, day) == if FileOrEmpty(rest, day) == map[] then FileRemoved(rest, day) else rest
  {
    var kept := map id | id in db.files[day] && db.Live(id) :: db.files[day][id];
    assert db.files[day] - DeadRows(db, day) == kept;
    assert db.files[day := kept] - {day} == db.files - {day};
  }

  /** gcFile is a run of the protocol. */
  lemma CollectIsRun(z: Compressor, db: Db, day: Day, l: Id)
    requires day in db.files
    ensures Run(z, Sys(db, map[], l), CollectActions(db, day)) == Sys(FileCollected(db, day), map[], l)
  {
    var ids, dead := db.files[day].Keys, DeadRows(db, day);
    var s0, s1 := Sys(db, map[], l), Alone(db, Listed(day, ids, {}), l);
    var s2, s3 := Alone(db, Asked(day, {}, {}, ids, ids * db.markers.Keys), l), Alone(db, Listed(day, {}, dead), l);
    var rest := RowsDeleted(db, day, dead);
    var s4 := Alone(rest, Listed(day, {}, {}), l);
    var s5 := Step(z, s4, CountLeft(0));
    Listing(z, db, day, l);
    Asking(z, db, day, ids, l);
    Judging(z, db, day, l);
    Deleting(z, db, day, dead, l);
    Finishing(z, rest, day, l);
    CollectedBySteps(db, day);
    SixSteps(z, s0, s1, s2, s3, s4, s5, Step(z, s5, RemoveFile(0)), day, ids, dead);
  }

  lemma SixSteps(z: Compressor, s0: Sys, s1: Sys, s2: Sys, s3: Sys, s4: Sys, s5: Sys, s6: Sys, day: Day,
                 ids: set<Id>, dead: set<Id>)
    requires Step(z, s0, BeginCollect(0, day)) == s1 && Step(z, s1, AskMarkers(0, ids)) == s2
    requires Step(z, s2, AskHot(0)) == s3 && Step(z, s3, DeleteOrphans(0, dead)) == s4
    requires Step(z, s4, CountLeft(0)) == s5 && Step(z, s5, RemoveFile(0)) == s6
    ensures Run(z, s0, [BeginCollect(0, day), AskMarkers(0, ids), AskHot(0), DeleteOrphans(0, dead), CountLeft(0),
                        RemoveFile(0)]) == s6
  {
    var a, b, c, d := BeginCollect(0, day), AskMarkers(0, ids), AskHot(0), DeleteOrphans(0, dead);
    Extend(z, s0, [], a, s0, s1);
    Extend(z, s0, [] + [a], b, s1, s2);
    Extend(z, s0, [] + [a] + [b], c, s2, s3);
    Extend(z, s0, [] + [a] + [b] + [c], d, s3, s4);
    Extend(z, s0, [] + [a] + [b] + [c] + [d], CountLeft(0), s4, s5);
    Extend(z, s0, [] + [a] + [b] + [c] + [d] + [CountLeft(0)], RemoveFile(0), s5, s6);
    assert [] + [a] + [b] + [c] + [d] + [CountLeft(0)] + [RemoveFile(0)] == [a, b, c, d, CountLeft(0), RemoveFile(0)];
  }

  /** What GCArchive does over a listing, as actions. */
  function PassActions(db: Db, days: seq<Day>): seq<Action> {
    if days == [] then []
    else
      var mid, day := FilesCollected(db, days[..|days| - 1]), days[|days| - 1];
      PassActions(db, days[..|days| - 1]) + if day in mid.files then CollectActions(mid, day) else []
  }

  /** A whole pass is a run of the protocol, so everything that holds of every run holds across it. */
  lemma {:induction false} PassIsRun(z: Compressor, db: Db, days: seq<Day>, l: Id)
    ensures Run(z, Sys(db, map[], l), PassActions(db, days)) == Sys(FilesCollected(db, days), map[], l)
    decreases |days|
  {
    if days != [] {
      var init, day := days[..|days| - 1], days[|days| - 1];
      PassIsRun(z, db, init, l);
      var mid := FilesCollected(db, init);
      RunAppend(z, Sys(db, map[], l), PassActions(db, init), if day in mid.files then CollectActions(mid, day) else []);
      if day in mid.files {
        CollectIsRun(z, mid, day, l);
      }
    }
  }
}
