/** Every action keeps the invariant, one lemma per action over one lemma per row. */
module ProtocolProofs {
  import opened Prelude
  import opened Events
  import opened BlobCodec
  import opened Merge
  import opened Billing
  import opened ArchiveDb
  import opened Protocol

  // ---------- one row ----------

  /** The merge's presence test is exact: a hot byte or a marker bit, exactly when the call has the body. */
  lemma PresenceExact(z: Compressor, e: Event, pe: Event, marker: Option<Marker>, row: Option<DayRow>, c: Col)
    requires RowInv(z, e, pe, marker, row)
    ensures var archived := if marker.Some? then marker.value.mask else {};
            (Present(e, archived, c) <==> c in pe.bodies) && (Present(pe, {}, c) <==> c in pe.bodies)
  {
  }

  /** Given one presence test, a merge does to every other column what it does without an archive. */
  lemma MergeSameColumns(e: Event, pe: Event, archived: Mask, ev: Event)
    requires e.WithBodies(pe.bodies) == pe
    requires forall c: Col :: Present(e, archived, c) <==> Present(pe, {}, c)
    ensures Merged(e, archived, ev).WithBodies(Merged(pe, {}, ev).bodies) == Merged(pe, {}, ev)
  {
    assert e.cost == pe.cost && e.carried == pe.carried && e.fixed == pe.fixed && e.sourceRefs == pe.sourceRefs;
    assert e.measured == pe.measured && e.account == pe.account && e.mode == pe.mode;
    assert Winner(e, ev) == Winner(pe, ev);
    MergeSameBilling(e, pe, ev);
    MergeSameToolNames(e, pe, archived, ev);
    assert MergedComplete(e, archived, ev) == MergedComplete(pe, {}, ev);
  }

  lemma MergeSameBilling(e: Event, pe: Event, ev: Event)
    requires e.WithBodies(pe.bodies) == pe
    ensures MergedMode(e, ev) == MergedMode(pe, ev)
    ensures MergedCost(e, ev) == MergedCost(pe, ev)
    ensures MergedAccount(e, ev) == MergedAccount(pe, ev)
  {
    assert ProxyInvolved(e) == ProxyInvolved(pe) && Winner(e, ev) == Winner(pe, ev);
  }

  lemma MergeSameToolNames(e: Event, pe: Event, archived: Mask, ev: Event)
    requires e.toolNames == pe.toolNames
    requires forall c: Col :: Present(e, archived, c) <==> Present(pe, {}, c)
    ensures Merged(e, archived, ev).toolNames == Merged(pe, {}, ev).toolNames
    ensures Merged(pe, {}, ev).toolNames.Some? <==> Present(Merged(pe, {}, ev), {}, Req)
  {
    assert Present(e, archived, Req) <==> Present(pe, {}, Req);
  }

  lemma MergeRow(z: Compressor, e: Event, pe: Event, marker: Option<Marker>, row: Option<DayRow>, ev: Event)
    requires RowInv(z, e, pe, marker, row) && BodiesOk(ev.bodies)
    ensures var archived := if marker.Some? then marker.value.mask else {};
            RowInv(z, Merged(e, archived, ev), Merged(pe, {}, ev), marker, row)
    ensures AwaitsBackfill(Merged(e, if marker.Some? then marker.value.mask else {}, ev)) ==> AwaitsBackfill(e)
    ensures pe.toolNames.Some? ==> Merged(pe, {}, ev).toolNames.Some?
    ensures forall c :: c in pe.bodies ==> c in Merged(pe, {}, ev).bodies && Merged(pe, {}, ev).bodies[c] == pe.bodies[c]
  {
    var archived := if marker.Some? then marker.value.mask else {};
    forall c: Col
      ensures (Present(e, archived, c) <==> c in pe.bodies) && (Present(pe, {}, c) <==> c in pe.bodies)
    {
      PresenceExact(z, e, pe, marker, row, c);
    }
    MergeSameColumns(e, pe, archived, ev);
    MergeSameToolNames(e, pe, archived, ev);
    MergeRowBodies(z, e, pe, marker, row, ev);
  }

  lemma MergeRowBodies(z: Compressor, e: Event, pe: Event, marker: Option<Marker>, row: Option<DayRow>, ev: Event)
    requires RowInv(z, e, pe, marker, row) && BodiesOk(ev.bodies)
    requires forall c: Col :: Present(e, if marker.Some? then marker.value.mask else {}, c) <==> c in pe.bodies
    requires forall c: Col :: Present(pe, {}, c) <==> c in pe.bodies
    ensures var archived := if marker.Some? then marker.value.mask else {};
            var b, pb := MergedBodies(e, archived, ev), MergedBodies(pe, {}, ev);
            && BodiesOk(pb)
            && (forall c :: c in b ==> c in pb && b[c] == pb[c])
            && (forall c :: c in pb && c !in b ==> marker.Some? && c in marker.value.mask)
            && (forall c :: c in pe.bodies ==> c in pb && pb[c] == pe.bodies[c])
  {
  }

  lemma InsertRow(z: Compressor, ev: Event)
    requires BodiesOk(ev.bodies)
    ensures RowInv(z, Inserted(ev), Inserted(ev), None, None)
  {
  }

  lemma ClearRow(z: Compressor, e: Event, pe: Event, marker: Option<Marker>, row: DayRow, mask: Mask, next: Marker)
    requires RowInv(z, e, pe, marker, Some(row))
    requires mask <= row.mask
    requires next.day == DayOf(e.fixed.startedAt)
    requires next.mask == mask + (if marker.Some? then marker.value.mask else {})
    ensures RowInv(z, e.WithBodies(e.bodies - mask), pe, Some(next), Some(row))
  {
  }

  /** What the encoder writes, the reader returns. */
  lemma EncodedReads(z: Compressor, b: Bodies, c: Col)
    requires z.Lawful() && BodiesOk(b) && c in b
    ensures ReadCol(z, EncodedRow(z, b), c) == Some(b[c])
  {
    RoundTrip(z, b[c]);
  }

  /** The upsert supplies a column from the newest write that carries it. */
  lemma UpsertReads(z: Compressor, row: Option<DayRow>, b: Bodies, c: Col)
    requires z.Lawful() && BodiesOk(b)
    ensures c in b ==> ReadCol(z, Upserted(row, EncodedRow(z, b)), c) == Some(b[c])
    ensures c !in b && row.Some? ==> ReadCol(z, Upserted(row, EncodedRow(z, b)), c) == ReadCol(z, row.value, c)
  {
    if c in b {
      EncodedReads(z, b, c);
    }
  }

  lemma UpsertHolds(z: Compressor, row: Option<DayRow>, b: Bodies, bodies: Bodies)
    requires z.Lawful() && BodiesOk(b) && b != map[]
    requires row.Some? ==> RowHolds(z, row.value, bodies)
    requires forall c :: c in b ==> c in bodies && b[c] == bodies[c]
    ensures RowHolds(z, Upserted(row, EncodedRow(z, b)), bodies)
  {
    var up := Upserted(row, EncodedRow(z, b));
    assert up.mask == (if row.Some? then row.value.mask else {}) + b.Keys;
    forall c | c in up.mask
      ensures c in bodies && ReadCol(z, up, c) == Some(bodies[c])
    {
      UpsertReads(z, row, b, c);
    }
    var c :| c in b;
    assert c in up.mask;
  }

  lemma UpsertMask(row: Option<DayRow>, z: Compressor, b: Bodies)
    ensures Upserted(row, EncodedRow(z, b)).mask == (if row.Some? then row.value.mask else {}) + b.Keys
  {
  }

  lemma FileInvWith(z: Compressor, pe: Event, marker: Option<Marker>, row: Option<DayRow>, next: DayRow, b: Bodies)
    requires FileInv(z, pe, marker, row) && (Req in b ==> pe.toolNames.Some?)
    requires next.mask == (if row.Some? then row.value.mask else {}) + b.Keys && RowHolds(z, next, pe.bodies)
    ensures FileInv(z, pe, marker, Some(next))
  {
  }

  lemma UpsertRow(z: Compressor, pe: Event, marker: Option<Marker>, row: Option<DayRow>, b: Bodies)
    requires z.Lawful() && FileInv(z, pe, marker, row) && BodiesOk(pe.bodies)
    requires b != map[] && (Req in b ==> pe.toolNames.Some?)
    requires forall c :: c in b ==> c in pe.bodies && b[c] == pe.bodies[c]
    ensures FileInv(z, pe, marker, Some(Upserted(row, EncodedRow(z, b))))
  {
    UpsertHolds(z, row, b, pe.bodies);
    UpsertMask(row, z, b);
    FileInvWith(z, pe, marker, row, Upserted(row, EncodedRow(z, b)), b);
  }

  lemma RestoreRow(z: Compressor, e: Event, pe: Event, marker: Option<Marker>, row: Option<DayRow>, got: DayRow)
    requires RowInv(z, e, pe, marker, row)
    requires RowHolds(z, got, pe.bodies) && (marker.Some? ==> marker.value.mask <= got.mask)
    ensures RowInv(z, e.WithBodies(Filled(z, got, e)), pe, None, row)
    ensures AwaitsBackfill(e.WithBodies(Filled(z, got, e))) ==> AwaitsBackfill(e) || Req in got.mask
  {
  }

  // ---------- one row of the hot database changes ----------

  function WithRow(db: Db, id: Id, e: Event): Db {
    db.(events := db.events[id := e])
  }

  /** The new pair of rows is in order, and forgets nothing a process may carry. */
  ghost predicate RowAdvances(z: Compressor, db: Db, plain: Db, id: Id, e: Event, pe: Event)
    requires id in db.events && id in plain.events
  {
    var e0, pe0 := db.events[id], plain.events[id];
    && RowInv(z, e, pe, db.MarkerOf(id), db.RowIn(DayOf(e0.fixed.startedAt), id))
    && e.fixed == e0.fixed
    && (AwaitsBackfill(e) ==> AwaitsBackfill(e0))
    && (pe0.toolNames.Some? ==> pe.toolNames.Some?)
    && (forall c :: c in pe0.bodies ==> c in pe.bodies && pe.bodies[c] == pe0.bodies[c])
    && (e0.bodies != map[] ==> e.bodies != map[])
  }

  /** A collector's last word on a file outlives everything but new events. */
  lemma NoneStays(db: Db, db': Db, procs: map<Pid, Proc>)
    requires NoneFromEmptied(db, procs) && db'.events.Keys <= db.events.Keys
    ensures NoneFromEmptied(db', procs)
  {
    forall p, q | p in procs && q in procs && procs[p].Emptied?
      ensures HoldsNone(db', procs[p].day, procs[q])
    {
      assert HoldsNone(db, procs[p].day, procs[q]);
    }
  }

  /** A transaction keeps the invariant when it keeps each part of it. */
  lemma Assemble(z: Compressor, s: Sys, p: Plain, db: Db, plain: Db, log: map<Id, seq<Event>>)
    requires Inv(z, s, p) && db.events.Keys == plain.events.Keys
    requires Shape(db, plain) && RowsInv(z, db, plain) && ProcsInv(z, db, plain, s.procs)
    requires NoneFromEmptied(db, s.procs)
    ensures Inv(z, s.(db := db), p.(db := plain, log := log))
  {
  }

  /** The same for one that the never-archived store does not see. */
  lemma AssembleMove(z: Compressor, s: Sys, p: Plain, db: Db)
    requires Inv(z, s, p) && db.events.Keys == p.db.events.Keys
    requires Shape(db, p.db) && RowsInv(z, db, p.db) && ProcsInv(z, db, p.db, s.procs)
    requires NoneFromEmptied(db, s.procs)
    ensures Inv(z, s.(db := db), p)
  {
  }

  lemma RowKeepsShape(db: Db, plain: Db, id: Id, e: Event, pe: Event)
    requires Shape(db, plain) && id in db.events && e.fixed == db.events[id].fixed
    ensures Shape(WithRow(db, id, e), WithRow(plain, id, pe))
  {
    var db' := WithRow(db, id, e);
    forall day, i | db'.RowIn(day, i).Some?
      ensures OnDay(db', day, i)
    {
      assert db.RowIn(day, i).Some? && OnDay(db, day, i);
    }
  }

  lemma RowKeepsRow(z: Compressor, db: Db, plain: Db, id: Id, e: Event, pe: Event, i: Id)
    requires id in db.events && id in plain.events && i in db.events && i in plain.events
    requires RowInvAt(z, db, plain, i)
    requires RowAdvances(z, db, plain, id, e, pe)
    ensures RowInvAt(z, WithRow(db, id, e), WithRow(plain, id, pe), i)
  {
  }

  lemma RowKeepsRows(z: Compressor, db: Db, plain: Db, id: Id, e: Event, pe: Event)
    requires db.events.Keys == plain.events.Keys && id in db.events
    requires RowsInv(z, db, plain)
    requires RowAdvances(z, db, plain, id, e, pe)
    ensures RowsInv(z, WithRow(db, id, e), WithRow(plain, id, pe))
  {
    forall i | i in db.events
      ensures RowInvAt(z, WithRow(db, id, e), WithRow(plain, id, pe), i)
    {
      RowKeepsRow(z, db, plain, id, e, pe, i);
    }
  }

  lemma SameRowCarried(z: Compressor, db: Db, plain: Db, id: Id, e: Event, pe: Event, pc: Proc)
    requires id in db.events && id in plain.events
    requires RowAdvances(z, db, plain, id, e, pe)
    requires CarriesOk(z, db, plain, pc, id)
    ensures CarriesOk(z, WithRow(db, id, e), WithRow(plain, id, pe), pc, id)
  {
  }

  lemma OtherRowCarried(z: Compressor, db: Db, plain: Db, id: Id, e: Event, pe: Event, pc: Proc, i: Id)
    requires i != id && i in db.events && i in plain.events
    requires CarriesOk(z, db, plain, pc, i)
    ensures CarriesOk(z, WithRow(db, id, e), WithRow(plain, id, pe), pc, i)
  {
  }

  lemma RowKeepsCarried(z: Compressor, db: Db, plain: Db, id: Id, e: Event, pe: Event, pc: Proc, i: Id)
    requires id in db.events && id in plain.events && i in db.events && i in plain.events
    requires RowAdvances(z, db, plain, id, e, pe)
    requires CarriesOk(z, db, plain, pc, i)
    ensures CarriesOk(z, WithRow(db, id, e), WithRow(plain, id, pe), pc, i)
  {
    if i == id {
      SameRowCarried(z, db, plain, id, e, pe, pc);
    } else {
      OtherRowCarried(z, db, plain, id, e, pe, pc, i);
    }
  }

  lemma RowKeepsProc(z: Compressor, db: Db, plain: Db, id: Id, e: Event, pe: Event, pc: Proc)
    requires db.events.Keys == plain.events.Keys && id in db.events
    requires RowAdvances(z, db, plain, id, e, pe)
    requires ProcInv(z, db, plain, pc)
    ensures ProcInv(z, WithRow(db, id, e), WithRow(plain, id, pe), pc)
  {
    forall i | i in db.events
      ensures CarriesOk(z, WithRow(db, id, e), WithRow(plain, id, pe), pc, i)
    {
      RowKeepsCarried(z, db, plain, id, e, pe, pc, i);
    }
  }

  lemma RowKeeps(z: Compressor, s: Sys, p: Plain, id: Id, e: Event, pe: Event, log: map<Id, seq<Event>>)
    requires Inv(z, s, p) && id in s.db.events
    requires RowAdvances(z, s.db, p.db, id, e, pe)
    ensures Inv(z, s.(db := WithRow(s.db, id, e)), p.(db := WithRow(p.db, id, pe), log := log))
  {
    RowKeepsShape(s.db, p.db, id, e, pe);
    RowKeepsRows(z, s.db, p.db, id, e, pe);
    forall q | q in s.procs
      ensures ProcInv(z, WithRow(s.db, id, e), WithRow(p.db, id, pe), s.procs[q])
    {
      RowKeepsProc(z, s.db, p.db, id, e, pe, s.procs[q]);
    }
    NoneStays(s.db, WithRow(s.db, id, e), s.procs);
    Assemble(z, s, p, WithRow(s.db, id, e), WithRow(p.db, id, pe), log);
  }

  // ---------- deliveries, repricing, backfill ----------

  lemma InsertKeepsShape(db: Db, plain: Db, rid: string, ev: Event)
    requires Shape(db, plain)
    ensures Shape(WithNewRow(db, rid, ev), WithNewRow(plain, rid, ev))
  {
    var db' := WithNewRow(db, rid, ev);
    forall day, i | db'.RowIn(day, i).Some?
      ensures OnDay(db', day, i)
    {
      assert db.RowIn(day, i).Some? && OnDay(db, day, i);
    }
  }

  function WithNewRow(db: Db, rid: string, e: Event): Db {
    db.(events := db.events[db.nextId := e], byRequest := db.byRequest[rid := db.nextId], nextId := db.nextId + 1)
  }

  lemma InsertKeepsRow(z: Compressor, db: Db, plain: Db, rid: string, e: Event, i: Id)
    requires Shape(db, plain) && RowInv(z, e, e, None, None)
    requires i != db.nextId ==> i in db.events && RowInvAt(z, db, plain, i)
    ensures RowInvAt(z, WithNewRow(db, rid, e), WithNewRow(plain, rid, e), i)
  {
    if i == db.nextId {
      var day := DayOf(e.fixed.startedAt);
      assert db.RowIn(day, i).Some? ==> OnDay(db, day, i);
    }
  }

  lemma InsertKeepsProc(z: Compressor, db: Db, plain: Db, rid: string, e: Event, pc: Proc)
    requires Shape(db, plain) && ProcInv(z, db, plain, pc)
    ensures ProcInv(z, WithNewRow(db, rid, e), WithNewRow(plain, rid, e), pc)
  {
    var db', plain' := WithNewRow(db, rid, e), WithNewRow(plain, rid, e);
    forall i | i in db'.events
      ensures CarriesOk(z, db', plain', pc, i)
    {
      if i == db.nextId {
        assert i in CarriedIds(pc) ==> OnDay(db, pc.day, i);
      } else {
        assert CarriesOk(z, db, plain, pc, i);
      }
    }
    forall i | i in CarriedIds(pc)
      ensures OnDay(db', pc.day, i)
    {
      assert OnDay(db, pc.day, i);
    }
  }

  lemma InsertKeeps(z: Compressor, s: Sys, p: Plain, rid: string, e: Event, log: map<Id, seq<Event>>)
    requires Inv(z, s, p) && RowInv(z, e, e, None, None)
    ensures Inv(z, s.(db := WithNewRow(s.db, rid, e)), p.(db := WithNewRow(p.db, rid, e), log := log))
  {
    InsertKeepsShape(s.db, p.db, rid, e);
    forall i | i in WithNewRow(s.db, rid, e).events
      ensures RowInvAt(z, WithNewRow(s.db, rid, e), WithNewRow(p.db, rid, e), i)
    {
      InsertKeepsRow(z, s.db, p.db, rid, e, i);
    }
    forall q | q in s.procs
      ensures ProcInv(z, WithNewRow(s.db, rid, e), WithNewRow(p.db, rid, e), s.procs[q])
    {
      InsertKeepsProc(z, s.db, p.db, rid, e, s.procs[q]);
    }
    InsertKeepsNone(z, s, p, rid, e);
    Assemble(z, s, p, WithNewRow(s.db, rid, e), WithNewRow(p.db, rid, e), log);
  }

  lemma InsertKeepsNone(z: Compressor, s: Sys, p: Plain, rid: string, e: Event)
    requires Inv(z, s, p)
    ensures NoneFromEmptied(WithNewRow(s.db, rid, e), s.procs)
  {
    forall q, r | q in s.procs && r in s.procs && s.procs[q].Emptied?
      ensures HoldsNone(WithNewRow(s.db, rid, e), s.procs[q].day, s.procs[r])
    {
      assert HoldsNone(s.db, s.procs[q].day, s.procs[r]) && ProcInv(z, s.db, p.db, s.procs[r]);
      if s.procs[r].HasMasks? {
        NewIdNotCarried(z, s.db, p.db, s.procs[r]);
      }
    }
  }

  lemma NewIdNotCarried(z: Compressor, db: Db, plain: Db, pc: Proc)
    requires db.events.Keys == plain.events.Keys && ProcInv(z, db, plain, pc)
    ensures db.nextId !in CarriedIds(pc)
  {
    forall id | id in CarriedIds(pc)
      ensures id < db.nextId
    {
      assert OnDay(db, pc.day, id);
    }
  }

  lemma MergeAdvances(z: Compressor, db: Db, plain: Db, id: Id, ev: Event)
    requires id in db.events && id in plain.events && RowInvAt(z, db, plain, id) && BodiesOk(ev.bodies)
    requires plain.markers == map[]
    ensures RowAdvances(z, db, plain, id, Merged(db.events[id], db.Archived(id), ev),
                        Merged(plain.events[id], plain.Archived(id), ev))
  {
    MergeRow(z, db.events[id], plain.events[id], db.MarkerOf(id),
             db.RowIn(DayOf(db.events[id].fixed.startedAt), id), ev);
    MergeKeepsSome(db.events[id], db.Archived(id), ev);
  }

  /** A merge never leaves a row that had a hot body without one. */
  lemma MergeKeepsSome(e: Event, archived: Mask, ev: Event)
    requires BodiesOk(e.bodies)
    ensures e.bodies != map[] ==> Merged(e, archived, ev).bodies != map[]
  {
    if c :| c in e.bodies {
      assert c in MergedBodies(e, archived, ev);
    }
  }

  lemma DeliverKeeps(z: Compressor, s: Sys, p: Plain, ev: Event)
    requires Inv(z, s, p) && BodiesOk(ev.bodies)
    ensures Inv(z, Step(z, s, Deliver(ev)), PlainStep(p, Deliver(ev)))
  {
    var rid := ev.fixed.requestId;
    var log := PlainStep(p, Deliver(ev)).log;
    if rid in s.db.byRequest && s.db.byRequest[rid] in s.db.events {
      var id := s.db.byRequest[rid];
      assert RowInvAt(z, s.db, p.db, id);
      MergeAdvances(z, s.db, p.db, id, ev);
      RowKeeps(z, s, p, id, Merged(s.db.events[id], s.db.Archived(id), ev),
               Merged(p.db.events[id], p.db.Archived(id), ev), log);
    } else {
      InsertRow(z, ev);
      InsertKeeps(z, s, p, rid, Inserted(ev), log);
    }
  }

  lemma RepriceKeeps(z: Compressor, s: Sys, p: Plain, id: Id, usd: real, source: CostSource)
    requires Inv(z, s, p)
    ensures Inv(z, Step(z, s, Reprice(id, usd, source)), PlainStep(p, Reprice(id, usd, source)))
  {
    if id in s.db.events {
      assert RowInvAt(z, s.db, p.db, id);
      RepriceAdvances(z, s.db, p.db, id, usd, source);
      RowKeeps(z, s, p, id, Repriced(s.db.events[id], usd, source), Repriced(p.db.events[id], usd, source), p.log);
    }
  }

  lemma RepriceAdvances(z: Compressor, db: Db, plain: Db, id: Id, usd: real, source: CostSource)
    requires id in db.events && id in plain.events && RowInvAt(z, db, plain, id)
    ensures RowAdvances(z, db, plain, id, Repriced(db.events[id], usd, source), Repriced(plain.events[id], usd, source))
  {
  }

  lemma NamesAdvance(z: Compressor, db: Db, plain: Db, id: Id, names: string)
    requires id in db.events && id in plain.events && RowInvAt(z, db, plain, id)
    ensures Present(db.events[id], db.Archived(id), Req) <==> Present(plain.events[id], {}, Req)
    ensures Present(db.events[id], db.Archived(id), Req) ==>
              RowAdvances(z, db, plain, id, db.events[id].(toolNames := Some(names)),
                          plain.events[id].(toolNames := Some(names)))
  {
    PresenceExact(z, db.events[id], plain.events[id], db.MarkerOf(id),
                  db.RowIn(DayOf(db.events[id].fixed.startedAt), id), Req);
  }

  lemma SetToolNamesKeeps(z: Compressor, s: Sys, p: Plain, id: Id, names: string)
    requires Inv(z, s, p)
    ensures Inv(z, Step(z, s, SetToolNames(id, names)), PlainStep(p, SetToolNames(id, names)))
  {
    if id in s.db.events {
      assert RowInvAt(z, s.db, p.db, id);
      NamesAdvance(z, s.db, p.db, id, names);
      NamesTaken(z, s, p, id, names);
      if id < s.legacyBelow && Present(s.db.events[id], s.db.Archived(id), Req) {
        RowKeeps(z, s, p, id, s.db.events[id].(toolNames := Some(names)),
                 p.db.events[id].(toolNames := Some(names)), p.log);
      }
    }
  }

  lemma NamesTaken(z: Compressor, s: Sys, p: Plain, id: Id, names: string)
    requires id in s.db.events && id in p.db.events && p.db.markers == map[] && s.legacyBelow == p.legacyBelow
    requires Present(s.db.events[id], s.db.Archived(id), Req) <==> Present(p.db.events[id], {}, Req)
    ensures var a, taken := SetToolNames(id, names), id < s.legacyBelow && Present(s.db.events[id], s.db.Archived(id), Req);
            && Step(z, s, a) == (if taken then s.(db := WithRow(s.db, id, s.db.events[id].(toolNames := Some(names)))) else s)
            && PlainStep(p, a) == (if taken then p.(db := WithRow(p.db, id, p.db.events[id].(toolNames := Some(names)))) else p)
  {
  }

  // ---------- deletions ----------

  lemma DeleteKeepsShape(db: Db, plain: Db, ids: set<Id>)
    requires Shape(db, plain)
    ensures Shape(Deleted(db, ids), Deleted(plain, ids))
  {
    var db', plain' := Deleted(db, ids), Deleted(plain, ids);
    assert plain'.markers == map[];
    assert db'.events.Keys == db.events.Keys - ids && plain'.events.Keys == plain.events.Keys - ids;
    forall day, i | db'.RowIn(day, i).Some?
      ensures OnDay(db', day, i)
    {
      assert db.RowIn(day, i).Some? && OnDay(db, day, i);
    }
  }

  lemma DeleteKeepsRow(z: Compressor, db: Db, plain: Db, ids: set<Id>, i: Id)
    requires i in db.events && i in plain.events && i !in ids && RowInvAt(z, db, plain, i)
    ensures RowInvAt(z, Deleted(db, ids), Deleted(plain, ids), i)
  {
  }

  lemma DeleteKeepsCarried(z: Compressor, db: Db, plain: Db, ids: set<Id>, pc: Proc, i: Id)
    requires i in db.events && i in plain.events && i !in ids && CarriesOk(z, db, plain, pc, i)
    ensures CarriesOk(z, Deleted(db, ids), Deleted(plain, ids), pc, i)
  {
  }

  lemma DeleteKeepsProc(z: Compressor, db: Db, plain: Db, ids: set<Id>, pc: Proc)
    requires db.events.Keys == plain.events.Keys && ProcInv(z, db, plain, pc)
    requires Deleted(db, ids).events.Keys == Deleted(plain, ids).events.Keys
    ensures ProcInv(z, Deleted(db, ids), Deleted(plain, ids), pc)
  {
    forall i | i in Deleted(db, ids).events
      ensures CarriesOk(z, Deleted(db, ids), Deleted(plain, ids), pc, i)
    {
      DeleteKeepsCarried(z, db, plain, ids, pc, i);
    }
    forall i | i in CarriedIds(pc)
      ensures OnDay(Deleted(db, ids), pc.day, i)
    {
      assert OnDay(db, pc.day, i);
    }
  }

  lemma DeleteKeeps(z: Compressor, s: Sys, p: Plain, ids: set<Id>)
    requires Inv(z, s, p)
    ensures Inv(z, Step(z, s, Delete(ids)), PlainStep(p, Delete(ids)))
  {
    var db', plain' := Deleted(s.db, ids), Deleted(p.db, ids);
    DeleteKeepsShape(s.db, p.db, ids);
    forall i | i in db'.events
      ensures RowInvAt(z, db', plain', i)
    {
      DeleteKeepsRow(z, s.db, p.db, ids, i);
    }
    forall q | q in s.procs
      ensures ProcInv(z, db', plain', s.procs[q])
    {
      DeleteKeepsProc(z, s.db, p.db, ids, s.procs[q]);
    }
    NoneStays(s.db, db', s.procs);
    Assemble(z, s, p, db', plain', p.log - ids);
  }

  // ---------- steps that move bodies: the never-archived store stands still ----------

  /** Same rows, ids and index; only bodies, markers and day files may differ. */
  predicate SameCalls(db: Db, db': Db) {
    && db'.events.Keys == db.events.Keys && db'.byRequest == db.byRequest && db'.nextId == db.nextId
    && (forall id :: id in db.events ==> db'.events[id].fixed == db.events[id].fixed)
  }

  lemma MoveKeepsShape(db: Db, db': Db, plain: Db)
    requires Shape(db, plain) && SameCalls(db, db')
    requires forall id :: id in db'.markers ==> id in db'.events
    requires forall day, id :: db'.RowIn(day, id).Some? ==> OnDay(db, day, id)
    ensures Shape(db', plain)
  {
    forall day, id | db'.RowIn(day, id).Some?
      ensures OnDay(db', day, id)
    {
      assert OnDay(db, day, id);
    }
  }

  lemma MoveKeepsProc(z: Compressor, db: Db, db': Db, plain: Db, pc: Proc)
    requires db.events.Keys == plain.events.Keys && SameCalls(db, db')
    requires ProcInv(z, db, plain, pc)
    requires forall id :: id in db.events ==> CarriesOk(z, db', plain, pc, id)
    ensures ProcInv(z, db', plain, pc)
  {
    forall id | id in CarriedIds(pc)
      ensures OnDay(db', pc.day, id)
    {
      assert OnDay(db, pc.day, id);
    }
  }

  // Steps 2 and 3: the day file.

  lemma WrittenRow(z: Compressor, db: Db, day: Day, rows: map<Id, Bodies>, d: Day, id: Id)
    ensures DayWritten(z, db, day, rows).RowIn(d, id)
         == if d == day && id in rows then Some(Upserted(db.RowIn(day, id), EncodedRow(z, rows[id]))) else db.RowIn(d, id)
  {
  }

  lemma WriteKeepsFile(z: Compressor, db: Db, plain: Db, pc: Proc, id: Id)
    requires z.Lawful() && pc.HasBodies?
    requires id in db.events && id in plain.events && RowInvAt(z, db, plain, id)
    requires CarriesOk(z, db, plain, pc, id) && id in pc.rows && OnDay(db, pc.day, id)
    ensures FileInv(z, plain.events[id], db.MarkerOf(id), Some(Upserted(db.RowIn(pc.day, id), EncodedRow(z, pc.rows[id]))))
  {
    UpsertRow(z, plain.events[id], db.MarkerOf(id), db.RowIn(pc.day, id), pc.rows[id]);
  }

  lemma WriteKeepsRow(z: Compressor, db: Db, plain: Db, pc: Proc, id: Id)
    requires z.Lawful() && pc.HasBodies?
    requires id in db.events && id in plain.events && RowInvAt(z, db, plain, id)
    requires CarriesOk(z, db, plain, pc, id)
    requires id in pc.rows ==> OnDay(db, pc.day, id)
    ensures RowInvAt(z, DayWritten(z, db, pc.day, pc.rows), plain, id)
  {
    WrittenRow(z, db, pc.day, pc.rows, DayOf(db.events[id].fixed.startedAt), id);
    if id in pc.rows {
      WriteKeepsFile(z, db, plain, pc, id);
    }
  }

  lemma WriteKeepsCarried(z: Compressor, db: Db, plain: Db, pc: Proc, other: Proc, id: Id)
    requires pc.HasBodies? && id in db.events && id in plain.events
    requires CarriesOk(z, db, plain, other, id)
    ensures CarriesOk(z, DayWritten(z, db, pc.day, pc.rows), plain, other, id)
  {
  }

  lemma WriteKeepsShape(z: Compressor, db: Db, plain: Db, day: Day, rows: map<Id, Bodies>)
    requires Shape(db, plain) && forall id :: id in rows ==> OnDay(db, day, id)
    ensures Shape(DayWritten(z, db, day, rows), plain)
  {
    var db' := DayWritten(z, db, day, rows);
    forall d, id | db'.RowIn(d, id).Some?
      ensures OnDay(db, d, id)
    {
      assert db.RowIn(d, id).Some? ==> OnDay(db, d, id);
    }
    MoveKeepsShape(db, db', plain);
  }

  lemma WriteMoves(z: Compressor, s: Sys, p: Plain, q: Pid)
    requires z.Lawful() && Inv(z, s, p) && q in s.procs && s.procs[q].HasBodies?
    ensures Inv(z, s.(db := DayWritten(z, s.db, s.procs[q].day, s.procs[q].rows)), p)
  {
    var pc := s.procs[q];
    var db' := DayWritten(z, s.db, pc.day, pc.rows);
    assert ProcInv(z, s.db, p.db, pc);
    WriteKeepsShape(z, s.db, p.db, pc.day, pc.rows);
    forall id | id in db'.events
      ensures RowInvAt(z, db', p.db, id)
    {
      WriteKeepsRow(z, s.db, p.db, pc, id);
    }
    forall r | r in s.procs
      ensures ProcInv(z, db', p.db, s.procs[r])
    {
      WriteKeepsProc(z, s.db, p.db, pc, s.procs[r]);
    }
    NoneStays(s.db, db', s.procs);
    AssembleMove(z, s, p, db');
  }

  lemma WriteKeepsProc(z: Compressor, db: Db, plain: Db, pc: Proc, other: Proc)
    requires db.events.Keys == plain.events.Keys && pc.HasBodies? && ProcInv(z, db, plain, other)
    ensures ProcInv(z, DayWritten(z, db, pc.day, pc.rows), plain, other)
  {
    var db' := DayWritten(z, db, pc.day, pc.rows);
    forall id | id in db.events
      ensures CarriesOk(z, db', plain, other, id)
    {
      WriteKeepsCarried(z, db, plain, pc, other, id);
    }
    MoveKeepsProc(z, db, db', plain, other);
  }

  lemma WriteDayKeeps(z: Compressor, s: Sys, p: Plain, q: Pid)
    requires z.Lawful() && Inv(z, s, p)
    ensures Inv(z, Step(z, s, WriteDay(q)), p)
  {
    if !s.Restores() && q in s.procs && s.procs[q].HasBodies? {
      var pc := s.procs[q];
      WriteMoves(z, s, p, q);
      var s' := s.(db := DayWritten(z, s.db, pc.day, pc.rows));
      AfterWrite(z, s'.db, p.db, pc);
      ProcReplaced(z, s', p, q, Written(pc.day, pc.rows.Keys));
    }
  }

  lemma AfterWrite(z: Compressor, db: Db, plain: Db, pc: Proc)
    requires db.events.Keys == plain.events.Keys && pc.HasBodies? && ProcInv(z, db, plain, pc)
    ensures ProcInv(z, db, plain, Written(pc.day, pc.rows.Keys))
  {
  }

  // Step 4: the hot commit.

  lemma ClearKeepsRow(z: Compressor, db: Db, plain: Db, pc: Proc, id: Id)
    requires pc.HasMasks? && MarkedAndCleared(db, pc.day, pc.masks).Some?
    requires id in db.events && id in plain.events && RowInvAt(z, db, plain, id)
    requires CarriesOk(z, db, plain, pc, id)
    requires id in pc.masks ==> OnDay(db, pc.day, id)
    ensures RowInvAt(z, MarkedAndCleared(db, pc.day, pc.masks).value, plain, id)
  {
    var db' := MarkedAndCleared(db, pc.day, pc.masks).value;
    var day := DayOf(db.events[id].fixed.startedAt);
    if id in pc.masks && pc.masks[id] != {} {
      ClearRow(z, db.events[id], plain.events[id], db.MarkerOf(id), db.RowIn(day, id).value,
               pc.masks[id], db'.markers[id]);
    } else {
      assert db'.MarkerOf(id) == db.MarkerOf(id) && db'.events[id] == db.events[id];
    }
  }

  /** What `other` may still rely on survives the hot commit of `pc`. */
  ghost predicate Unharmed(db: Db, pc: Proc, other: Proc)
    requires pc.HasMasks?
  {
    && !other.IsRestore()
    && (other.Asked? ==> !StripsAsked(db, pc.masks, other))
    && (other.Emptied? ==> HoldsNone(db, other.day, pc))
  }

  lemma ClearKeepsCarried(z: Compressor, db: Db, plain: Db, pc: Proc, other: Proc, id: Id)
    requires pc.HasMasks? && MarkedAndCleared(db, pc.day, pc.masks).Some? && Unharmed(db, pc, other)
    requires id in pc.masks ==> OnDay(db, pc.day, id)
    requires id in db.events && id in plain.events && CarriesOk(z, db, plain, other, id)
    ensures CarriesOk(z, MarkedAndCleared(db, pc.day, pc.masks).value, plain, other, id)
  {
    if other.Asked? && id in other.chunk && id !in other.marked {
      assert !StripsRow(db.events[id], pc.masks, id);
    }
  }

  lemma ClearKeepsShape(db: Db, plain: Db, day: Day, masks: map<Id, Mask>)
    requires Shape(db, plain) && MarkedAndCleared(db, day, masks).Some?
    ensures Shape(MarkedAndCleared(db, day, masks).value, plain)
    ensures SameCalls(db, MarkedAndCleared(db, day, masks).value)
  {
    var db' := MarkedAndCleared(db, day, masks).value;
    forall d, id | db'.RowIn(d, id).Some?
      ensures OnDay(db, d, id)
    {
      assert db.RowIn(d, id).Some? ==> OnDay(db, d, id);
    }
    MoveKeepsShape(db, db', plain);
  }

  lemma ClearKeepsProc(z: Compressor, db: Db, plain: Db, pc: Proc, other: Proc)
    requires db.events.Keys == plain.events.Keys && ProcInv(z, db, plain, other) && ProcInv(z, db, plain, pc)
    requires pc.HasMasks? && MarkedAndCleared(db, pc.day, pc.masks).Some? && Unharmed(db, pc, other)
    requires SameCalls(db, MarkedAndCleared(db, pc.day, pc.masks).value)
    ensures ProcInv(z, MarkedAndCleared(db, pc.day, pc.masks).value, plain, other)
  {
    var db' := MarkedAndCleared(db, pc.day, pc.masks).value;
    forall id | id in db.events
      ensures CarriesOk(z, db', plain, other, id)
    {
      assert id in CarriedIds(pc) ==> OnDay(db, pc.day, id);
      ClearKeepsCarried(z, db, plain, pc, other, id);
    }
    MoveKeepsProc(z, db, db', plain, other);
  }

  lemma ClearMoves(z: Compressor, s: Sys, p: Plain, q: Pid)
    requires Inv(z, s, p) && !s.Restores() && q in s.procs && s.procs[q].HasMasks? && !Strips(s, s.procs[q])
    requires MarkedAndCleared(s.db, s.procs[q].day, s.procs[q].masks).Some?
    ensures Inv(z, s.(db := MarkedAndCleared(s.db, s.procs[q].day, s.procs[q].masks).value), p)
  {
    var pc := s.procs[q];
    var db' := MarkedAndCleared(s.db, pc.day, pc.masks).value;
    assert ProcInv(z, s.db, p.db, pc);
    ClearKeepsShape(s.db, p.db, pc.day, pc.masks);
    forall id | id in db'.events
      ensures RowInvAt(z, db', p.db, id)
    {
      ClearKeepsRow(z, s.db, p.db, pc, id);
    }
    forall r | r in s.procs
      ensures ProcInv(z, db', p.db, s.procs[r])
    {
      assert Unharmed(s.db, pc, s.procs[r]);
      ClearKeepsProc(z, s.db, p.db, pc, s.procs[r]);
    }
    NoneStays(s.db, db', s.procs);
    AssembleMove(z, s, p, db');
  }

  lemma MarkAndClearTaken(z: Compressor, s: Sys, q: Pid)
    requires !s.Restores() && q in s.procs && s.procs[q].HasMasks? && !Strips(s, s.procs[q])
    ensures Step(z, s, MarkAndClear(q))
         == match MarkedAndCleared(s.db, s.procs[q].day, s.procs[q].masks)
            case None => Ended(s, q)
            case Some(db') => Ended(s.(db := db'), q)
  {
  }

  lemma MarkAndClearMoves(z: Compressor, s: Sys, p: Plain, q: Pid)
    requires Inv(z, s, p) && !s.Restores() && q in s.procs && s.procs[q].HasMasks? && !Strips(s, s.procs[q])
    ensures match MarkedAndCleared(s.db, s.procs[q].day, s.procs[q].masks)
            case None => Inv(z, Ended(s, q), p)
            case Some(db') => Inv(z, Ended(s.(db := db'), q), p)
  {
    match MarkedAndCleared(s.db, s.procs[q].day, s.procs[q].masks)
    case None => EndKeeps(z, s, p, q);
    case Some(db') =>
      ClearMoves(z, s, p, q);
      EndKeeps(z, s.(db := db'), p, q);
  }

  lemma MarkAndClearIdle(z: Compressor, s: Sys, q: Pid)
    requires s.Restores() || q !in s.procs || !s.procs[q].HasMasks? || Strips(s, s.procs[q])
    ensures Step(z, s, MarkAndClear(q)) == s
  {
  }

  lemma MarkAndClearKeeps(z: Compressor, s: Sys, p: Plain, q: Pid)
    requires Inv(z, s, p)
    ensures Inv(z, Step(z, s, MarkAndClear(q)), p)
  {
    if !s.Restores() && q in s.procs && s.procs[q].HasMasks? && !Strips(s, s.procs[q]) {
      MarkAndClearTaken(z, s, q);
      MarkAndClearMoves(z, s, p, q);
    } else {
      MarkAndClearIdle(z, s, q);
    }
  }

  lemma EndKeeps(z: Compressor, s: Sys, p: Plain, q: Pid)
    requires Inv(z, s, p)
    ensures Inv(z, Ended(s, q), p)
  {
  }

  // Garbage collection of one file.

  /** A live event's day row always has a marker or a hot body beside it. */
  lemma RowOfLiveEvent(z: Compressor, db: Db, plain: Db, id: Id)
    requires id in db.events && id in plain.events && RowInvAt(z, db, plain, id)
    requires db.RowIn(DayOf(db.events[id].fixed.startedAt), id).Some?
    ensures db.Live(id)
  {
    var row := db.RowIn(DayOf(db.events[id].fixed.startedAt), id).value;
    var c :| c in row.mask;
    assert c in plain.events[id].bodies;
  }

  lemma ListedRow(z: Compressor, db: Db, plain: Db, day: Day, id: Id)
    requires id in db.events && id in plain.events && RowInvAt(z, db, plain, id)
    requires day in db.files && (id in db.files[day] ==> OnDay(db, day, id))
    ensures CarriesOk(z, db, plain, Listed(day, db.files[day].Keys, {}), id)
  {
    if id in db.files[day] {
      assert db.RowIn(day, id).Some?;
      var c :| c in db.RowIn(day, id).value.mask;
      assert c in plain.events[id].bodies;
    }
  }

  lemma ListedKnows(z: Compressor, db: Db, plain: Db, day: Day)
    requires Shape(db, plain) && RowsInv(z, db, plain) && day in db.files
    ensures ProcInv(z, db, plain, Listed(day, db.files[day].Keys, {}))
  {
    forall id | id in db.files[day]
      ensures OnDay(db, day, id)
    {
      assert db.RowIn(day, id).Some?;
    }
    forall id | id in db.events
      ensures CarriesOk(z, db, plain, Listed(day, db.files[day].Keys, {}), id)
    {
      assert RowInvAt(z, db, plain, id);
      ListedRow(z, db, plain, day, id);
    }
  }

  lemma BeginCollectKeeps(z: Compressor, s: Sys, p: Plain, q: Pid, day: Day)
    requires Inv(z, s, p)
    ensures Inv(z, Step(z, s, BeginCollect(q, day)), p)
  {
    if q !in s.procs && day in s.db.files {
      ListedKnows(z, s.db, p.db, day);
      ProcAdded(z, s, p, q, Listed(day, s.db.files[day].Keys, {}));
    }
  }

  /** An unmarked event still there has all its bodies hot, so at the markers query it has some. */
  lemma AskedRow(z: Compressor, db: Db, plain: Db, pc: Proc, chunk: set<Id>, id: Id)
    requires id in db.events && id in plain.events && RowInvAt(z, db, plain, id)
    requires pc.Listed? && chunk <= pc.todo && CarriesOk(z, db, plain, pc, id)
    ensures CarriesOk(z, db, plain, Asked(pc.day, pc.todo - chunk, pc.orphans, chunk, chunk * db.markers.Keys), id)
  {
    if id in chunk && id !in db.markers {
      var c :| c in plain.events[id].bodies;
      assert c in db.events[id].bodies;
    }
  }

  lemma AskedKnows(z: Compressor, db: Db, plain: Db, pc: Proc, chunk: set<Id>)
    requires db.events.Keys == plain.events.Keys && RowsInv(z, db, plain)
    requires pc.Listed? && chunk <= pc.todo && ProcInv(z, db, plain, pc)
    ensures ProcInv(z, db, plain, Asked(pc.day, pc.todo - chunk, pc.orphans, chunk, chunk * db.markers.Keys))
  {
    var next := Asked(pc.day, pc.todo - chunk, pc.orphans, chunk, chunk * db.markers.Keys);
    forall id | id in db.events
      ensures CarriesOk(z, db, plain, next, id)
    {
      assert RowInvAt(z, db, plain, id);
      AskedRow(z, db, plain, pc, chunk, id);
    }
    forall id | id in CarriedIds(next)
      ensures OnDay(db, next.day, id)
    {
      assert id in CarriedIds(pc);
    }
  }

  lemma AskMarkersKeeps(z: Compressor, s: Sys, p: Plain, q: Pid, chunk: set<Id>)
    requires Inv(z, s, p)
    ensures Inv(z, Step(z, s, AskMarkers(q, chunk)), p)
  {
    if q in s.procs && s.procs[q].Listed? && chunk <= s.procs[q].todo {
      var pc := s.procs[q];
      AskedKnows(z, s.db, p.db, pc, chunk);
      ProcReplaced(z, s, p, q, Asked(pc.day, pc.todo - chunk, pc.orphans, chunk, chunk * s.db.markers.Keys));
    }
  }

  /** What the two queries both miss is gone. */
  lemma JudgedKnows(z: Compressor, db: Db, plain: Db, pc: Proc)
    requires db.events.Keys == plain.events.Keys && pc.Asked? && ProcInv(z, db, plain, pc)
    ensures var dead := pc.chunk - pc.marked - HotOf(db.events, pc.chunk).Keys;
            dead !! db.events.Keys && ProcInv(z, db, plain, Listed(pc.day, pc.todo, pc.orphans + dead))
  {
    var dead := pc.chunk - pc.marked - HotOf(db.events, pc.chunk).Keys;
    forall id | id in db.events
      ensures id !in dead && CarriesOk(z, db, plain, Listed(pc.day, pc.todo, pc.orphans + dead), id)
    {
      assert CarriesOk(z, db, plain, pc, id);
    }
    forall id | id in CarriedIds(Listed(pc.day, pc.todo, pc.orphans + dead))
      ensures OnDay(db, pc.day, id)
    {
      assert id in CarriedIds(pc);
    }
  }

  lemma AskHotKeeps(z: Compressor, s: Sys, p: Plain, q: Pid)
    requires Inv(z, s, p)
    ensures Inv(z, Step(z, s, AskHot(q)), p)
  {
    if q in s.procs && s.procs[q].Asked? {
      var pc := s.procs[q];
      JudgedKnows(z, s.db, p.db, pc);
      ProcReplaced(z, s, p, q, Listed(pc.day, pc.todo, pc.orphans + (pc.chunk - pc.marked - HotOf(s.db.events, pc.chunk).Keys)));
    }
  }

  // Rows of events that are gone, and a file without rows of marked events, may go.

  lemma GoneRowsKeepRow(z: Compressor, db: Db, plain: Db, day: Day, ids: set<Id>, id: Id)
    requires id in db.events && id in plain.events && RowInvAt(z, db, plain, id) && id !in ids
    ensures RowInvAt(z, RowsDeleted(db, day, ids), plain, id)
  {
    var d := DayOf(db.events[id].fixed.startedAt);
    assert RowsDeleted(db, day, ids).RowIn(d, id) == db.RowIn(d, id);
  }

  lemma GoneRowsKeepCarried(z: Compressor, db: Db, plain: Db, day: Day, ids: set<Id>, pc: Proc, id: Id)
    requires id in db.events && id in plain.events && CarriesOk(z, db, plain, pc, id) && id !in ids
    ensures CarriesOk(z, RowsDeleted(db, day, ids), plain, pc, id)
  {
    if pc.HasMasks? {
      assert RowsDeleted(db, day, ids).RowIn(pc.day, id) == db.RowIn(pc.day, id);
    }
  }

  lemma FewerRowsKeepShape(db: Db, db': Db, plain: Db)
    requires Shape(db, plain) && db' == db.(files := db'.files)
    requires forall day, id :: db'.RowIn(day, id).Some? ==> db.RowIn(day, id).Some?
    ensures Shape(db', plain) && SameCalls(db, db')
  {
    forall d, id | db'.RowIn(d, id).Some?
      ensures OnDay(db, d, id)
    {
      assert db.RowIn(d, id).Some? ==> OnDay(db, d, id);
    }
    MoveKeepsShape(db, db', plain);
  }

  lemma GoneRowsKeepProc(z: Compressor, db: Db, plain: Db, day: Day, ids: set<Id>, pc: Proc)
    requires db.events.Keys == plain.events.Keys && ids !! db.events.Keys && ProcInv(z, db, plain, pc)
    ensures ProcInv(z, RowsDeleted(db, day, ids), plain, pc)
  {
    forall id | id in db.events
      ensures CarriesOk(z, RowsDeleted(db, day, ids), plain, pc, id)
    {
      GoneRowsKeepCarried(z, db, plain, day, ids, pc, id);
    }
    MoveKeepsProc(z, db, RowsDeleted(db, day, ids), plain, pc);
  }

  lemma GoneRowsKeepRows(z: Compressor, db: Db, plain: Db, day: Day, ids: set<Id>)
    requires db.events.Keys == plain.events.Keys && RowsInv(z, db, plain) && ids !! db.events.Keys
    ensures RowsInv(z, RowsDeleted(db, day, ids), plain)
  {
    forall id | id in db.events
      ensures RowInvAt(z, RowsDeleted(db, day, ids), plain, id)
    {
      assert RowInvAt(z, db, plain, id);
      GoneRowsKeepRow(z, db, plain, day, ids, id);
    }
  }

  lemma GoneRowsKeepProcs(z: Compressor, db: Db, plain: Db, day: Day, ids: set<Id>, procs: map<Pid, Proc>)
    requires db.events.Keys == plain.events.Keys && ids !! db.events.Keys && ProcsInv(z, db, plain, procs)
    ensures ProcsInv(z, RowsDeleted(db, day, ids), plain, procs)
  {
    forall r | r in procs
      ensures ProcInv(z, RowsDeleted(db, day, ids), plain, procs[r])
    {
      GoneRowsKeepProc(z, db, plain, day, ids, procs[r]);
    }
  }

  lemma GoneRowsKeepShape(db: Db, plain: Db, day: Day, ids: set<Id>)
    requires Shape(db, plain)
    ensures Shape(RowsDeleted(db, day, ids), plain)
  {
    FewerRowsKeepShape(db, RowsDeleted(db, day, ids), plain);
  }

  lemma GoneRowsMove(z: Compressor, s: Sys, p: Plain, day: Day, ids: set<Id>)
    requires Inv(z, s, p) && ids !! s.db.events.Keys
    ensures Inv(z, s.(db := RowsDeleted(s.db, day, ids)), p)
  {
    var db' := RowsDeleted(s.db, day, ids);
    assert db'.events == s.db.events;
    GoneRowsKeepShape(s.db, p.db, day, ids);
    GoneRowsKeepRows(z, s.db, p.db, day, ids);
    GoneRowsKeepProcs(z, s.db, p.db, day, ids, s.procs);
    NoneStays(s.db, db', s.procs);
    AssembleMove(z, s, p, db');
  }

  lemma OrphansGone(z: Compressor, db: Db, plain: Db, pc: Proc)
    requires db.events.Keys == plain.events.Keys && pc.Listed? && ProcInv(z, db, plain, pc)
    ensures pc.orphans !! db.events.Keys
  {
    forall id | id in db.events
      ensures id !in pc.orphans
    {
      assert CarriesOk(z, db, plain, pc, id);
    }
  }

  lemma FewerOrphans(z: Compressor, db: Db, plain: Db, pc: Proc, next: Proc)
    requires db.events.Keys == plain.events.Keys && pc.Listed? && next.Listed? && ProcInv(z, db, plain, pc)
    requires next.day == pc.day && next.todo <= pc.todo && next.orphans <= pc.orphans
    ensures ProcInv(z, db, plain, next)
  {
    forall id | id in db.events
      ensures CarriesOk(z, db, plain, next, id)
    {
      assert CarriesOk(z, db, plain, pc, id);
    }
    forall id | id in CarriedIds(next)
      ensures OnDay(db, next.day, id)
    {
      assert id in CarriedIds(pc);
    }
  }

  lemma DeleteOrphansKeeps(z: Compressor, s: Sys, p: Plain, q: Pid, chunk: set<Id>)
    requires Inv(z, s, p)
    ensures Inv(z, Step(z, s, DeleteOrphans(q, chunk)), p)
  {
    if q in s.procs && s.procs[q].Listed? && s.procs[q].todo == {} && chunk <= s.procs[q].orphans {
      var pc := s.procs[q];
      OrphansGone(z, s.db, p.db, pc);
      GoneRowsMove(z, s, p, pc.day, chunk);
      var s' := s.(db := RowsDeleted(s.db, pc.day, chunk));
      FewerOrphans(z, s'.db, p.db, pc, Listed(pc.day, {}, pc.orphans - chunk));
      ProcReplaced(z, s', p, q, Listed(pc.day, {}, pc.orphans - chunk));
    }
  }

  lemma CountedRow(z: Compressor, db: Db, plain: Db, day: Day, id: Id)
    requires id in db.events && id in plain.events && RowInvAt(z, db, plain, id) && FileOrEmpty(db, day) == map[]
    ensures CarriesOk(z, db, plain, Emptied(day), id)
  {
  }

  lemma CountedHoldsNone(z: Compressor, db: Db, plain: Db, day: Day, pc: Proc)
    requires db.events.Keys == plain.events.Keys && ProcInv(z, db, plain, pc) && FileOrEmpty(db, day) == map[]
    ensures HoldsNone(db, day, pc)
  {
    if pc.HasMasks? && pc.day == day {
      forall id | id in db.events
        ensures id !in pc.masks
      {
        assert CarriesOk(z, db, plain, pc, id);
      }
    }
  }

  lemma CountLeftKeeps(z: Compressor, s: Sys, p: Plain, q: Pid)
    requires Inv(z, s, p)
    ensures Inv(z, Step(z, s, CountLeft(q)), p)
  {
    if q in s.procs && s.procs[q].Listed? && s.procs[q].todo == {} && s.procs[q].orphans == {} {
      var day := s.procs[q].day;
      if FileOrEmpty(s.db, day) == map[] {
        EmptiedKeeps(z, s, p, q, day);
      } else {
        EndKeeps(z, s, p, q);
      }
    }
  }

  lemma CountedKnows(z: Compressor, db: Db, plain: Db, day: Day)
    requires db.events.Keys == plain.events.Keys && RowsInv(z, db, plain) && FileOrEmpty(db, day) == map[]
    ensures ProcInv(z, db, plain, Emptied(day))
  {
    forall id | id in db.events
      ensures CarriesOk(z, db, plain, Emptied(day), id)
    {
      assert RowInvAt(z, db, plain, id);
      CountedRow(z, db, plain, day, id);
    }
  }

  lemma NoneFromCounted(z: Compressor, db: Db, plain: Db, procs: map<Pid, Proc>, q: Pid, day: Day)
    requires db.events.Keys == plain.events.Keys && ProcsInv(z, db, plain, procs) && FileOrEmpty(db, day) == map[]
    requires NoneFromEmptied(db, procs)
    ensures NoneFromEmptied(db, procs[q := Emptied(day)])
  {
    var next := procs[q := Emptied(day)];
    forall a, b | a in next && b in next && next[a].Emptied?
      ensures HoldsNone(db, next[a].day, next[b])
    {
      if a == q && b != q {
        CountedHoldsNone(z, db, plain, day, procs[b]);
      } else if a != q && b != q {
        assert HoldsNone(db, procs[a].day, procs[b]);
      }
    }
  }

  lemma WithProc(z: Compressor, s: Sys, p: Plain, q: Pid, pc: Proc)
    requires Inv(z, s, p) && ProcInv(z, s.db, p.db, pc)
    requires NoneFromEmptied(s.db, s.procs[q := pc]) && Exclusive(s.procs[q := pc])
    ensures Inv(z, s.(procs := s.procs[q := pc]), p)
  {
  }

  lemma EmptiedKeeps(z: Compressor, s: Sys, p: Plain, q: Pid, day: Day)
    requires Inv(z, s, p) && q in s.procs && s.procs[q].Listed? && FileOrEmpty(s.db, day) == map[]
    ensures Inv(z, s.(procs := s.procs[q := Emptied(day)]), p)
  {
    CountedKnows(z, s.db, p.db, day);
    NoneFromCounted(z, s.db, p.db, s.procs, q, day);
    WithProc(z, s, p, q, Emptied(day));
  }

  lemma RemovedKeepsRow(z: Compressor, db: Db, plain: Db, day: Day, id: Id)
    requires id in db.events && id in plain.events && RowInvAt(z, db, plain, id)
    requires CarriesOk(z, db, plain, Emptied(day), id)
    ensures RowInvAt(z, FileRemoved(db, day), plain, id)
  {
    var d := DayOf(db.events[id].fixed.startedAt);
    assert d != day ==> FileRemoved(db, day).RowIn(d, id) == db.RowIn(d, id);
    assert d == day ==> FileRemoved(db, day).RowIn(d, id) == None;
  }

  lemma RemovedKeepsCarried(z: Compressor, db: Db, plain: Db, day: Day, pc: Proc, id: Id)
    requires id in db.events && id in plain.events && CarriesOk(z, db, plain, pc, id) && HoldsNone(db, day, pc)
    ensures CarriesOk(z, FileRemoved(db, day), plain, pc, id)
  {
    if pc.HasMasks? && pc.day != day {
      assert FileRemoved(db, day).RowIn(pc.day, id) == db.RowIn(pc.day, id);
    }
  }

  lemma RemovedKeepsProc(z: Compressor, db: Db, plain: Db, day: Day, pc: Proc)
    requires db.events.Keys == plain.events.Keys && ProcInv(z, db, plain, pc) && HoldsNone(db, day, pc)
    ensures ProcInv(z, FileRemoved(db, day), plain, pc)
  {
    forall id | id in db.events
      ensures CarriesOk(z, FileRemoved(db, day), plain, pc, id)
    {
      RemovedKeepsCarried(z, db, plain, day, pc, id);
    }
    MoveKeepsProc(z, db, FileRemoved(db, day), plain, pc);
  }

  lemma RemoveMoves(z: Compressor, s: Sys, p: Plain, q: Pid)
    requires Inv(z, s, p) && q in s.procs && s.procs[q].Emptied?
    ensures Inv(z, s.(db := FileRemoved(s.db, s.procs[q].day)), p)
  {
    var day := s.procs[q].day;
    var db' := FileRemoved(s.db, day);
    assert ProcInv(z, s.db, p.db, s.procs[q]);
    FewerRowsKeepShape(s.db, db', p.db);
    forall id | id in db'.events
      ensures RowInvAt(z, db', p.db, id)
    {
      assert CarriesOk(z, s.db, p.db, s.procs[q], id);
      RemovedKeepsRow(z, s.db, p.db, day, id);
    }
    forall r | r in s.procs
      ensures ProcInv(z, db', p.db, s.procs[r])
    {
      assert HoldsNone(s.db, day, s.procs[r]);
      RemovedKeepsProc(z, s.db, p.db, day, s.procs[r]);
    }
    NoneStays(s.db, db', s.procs);
    AssembleMove(z, s, p, db');
  }

  lemma RemoveFileKeeps(z: Compressor, s: Sys, p: Plain, q: Pid)
    requires Inv(z, s, p)
    ensures Inv(z, Step(z, s, RemoveFile(q)), p)
  {
    if q in s.procs && s.procs[q].Emptied? {
      RemoveMoves(z, s, p, q);
      EndKeeps(z, s.(db := FileRemoved(s.db, s.procs[q].day)), p, q);
    }
  }

  // Restore.

  lemma HotRestoreKeepsShape(z: Compressor, db: Db, plain: Db, id: Id, row: DayRow)
    requires Shape(db, plain)
    ensures Shape(HotRestored(z, db, id, row), plain) && SameCalls(db, HotRestored(z, db, id, row))
  {
    var db' := HotRestored(z, db, id, row);
    forall d, i | db'.RowIn(d, i).Some?
      ensures OnDay(db, d, i)
    {
      assert db.RowIn(d, i).Some? ==> OnDay(db, d, i);
    }
    MoveKeepsShape(db, db', plain);
  }

  lemma HotRestoreKeepsRow(z: Compressor, db: Db, plain: Db, id: Id, row: DayRow, i: Id)
    requires i in db.events && i in plain.events && RowInvAt(z, db, plain, i)
    requires i == id ==> GotOk(z, db, plain.events[i], i, row)
    ensures RowInvAt(z, HotRestored(z, db, id, row), plain, i)
  {
    if i == id {
      RestoreRow(z, db.events[i], plain.events[i], db.MarkerOf(i),
                 db.RowIn(DayOf(db.events[i].fixed.startedAt), i), row);
    }
  }

  lemma HotRestoreKeepsCarried(z: Compressor, db: Db, plain: Db, id: Id, row: DayRow, pc: Proc, i: Id)
    requires !pc.IsArchiver() && i in db.events && i in plain.events && CarriesOk(z, db, plain, pc, i)
    ensures CarriesOk(z, HotRestored(z, db, id, row), plain, pc, i)
  {
  }

  lemma HotRestoreKeepsProc(z: Compressor, db: Db, plain: Db, id: Id, row: DayRow, pc: Proc)
    requires db.events.Keys == plain.events.Keys && !pc.IsArchiver() && ProcInv(z, db, plain, pc)
    requires SameCalls(db, HotRestored(z, db, id, row))
    ensures ProcInv(z, HotRestored(z, db, id, row), plain, pc)
  {
    var db' := HotRestored(z, db, id, row);
    forall i | i in db.events
      ensures CarriesOk(z, db', plain, pc, i)
    {
      HotRestoreKeepsCarried(z, db, plain, id, row, pc, i);
    }
    MoveKeepsProc(z, db, db', plain, pc);
  }

  lemma GotIsOk(z: Compressor, db: Db, plain: Db, pc: Proc, id: Id)
    requires db.events.Keys == plain.events.Keys
    requires pc.Restoring? && id in pc.got && ProcInv(z, db, plain, pc) && id in db.events
    ensures GotOk(z, db, plain.events[id], id, pc.got[id])
  {
    assert CarriesOk(z, db, plain, pc, id);
  }

  lemma HotRestoreKeepsRows(z: Compressor, db: Db, plain: Db, id: Id, row: DayRow)
    requires db.events.Keys == plain.events.Keys && RowsInv(z, db, plain)
    requires id in db.events ==> GotOk(z, db, plain.events[id], id, row)
    requires HotRestored(z, db, id, row).events.Keys == plain.events.Keys
    ensures RowsInv(z, HotRestored(z, db, id, row), plain)
  {
    forall i | i in db.events
      ensures RowInvAt(z, HotRestored(z, db, id, row), plain, i)
    {
      assert RowInvAt(z, db, plain, i);
      HotRestoreKeepsRow(z, db, plain, id, row, i);
    }
  }

  lemma HotRestoreMoves(z: Compressor, s: Sys, p: Plain, q: Pid, id: Id)
    requires Inv(z, s, p) && q in s.procs && s.procs[q].Restoring? && id in s.procs[q].got
    ensures Inv(z, s.(db := HotRestored(z, s.db, id, s.procs[q].got[id])), p)
  {
    var pc := s.procs[q];
    var row := pc.got[id];
    assert ProcInv(z, s.db, p.db, pc);
    HotRestoreKeepsShape(z, s.db, p.db, id, row);
    if id in s.db.events {
      GotIsOk(z, s.db, p.db, pc, id);
    }
    HotRestoreKeepsRows(z, s.db, p.db, id, row);
    forall r | r in s.procs
      ensures ProcInv(z, HotRestored(z, s.db, id, row), p.db, s.procs[r])
    {
      assert !s.procs[r].IsArchiver();
      HotRestoreKeepsProc(z, s.db, p.db, id, row, s.procs[r]);
    }
    NoneStays(s.db, HotRestored(z, s.db, id, row), s.procs);
    AssembleMove(z, s, p, HotRestored(z, s.db, id, row));
  }

  lemma RestoreHotKeeps(z: Compressor, s: Sys, p: Plain, q: Pid, id: Id)
    requires Inv(z, s, p)
    ensures Inv(z, Step(z, s, RestoreHot(q, id)), p)
  {
    if q in s.procs && s.procs[q].Restoring? && id in s.procs[q].todo && id in s.procs[q].got {
      var pc := s.procs[q];
      if Restorable(z, pc.got[id]) {
        HotRestoreMoves(z, s, p, q, id);
        var s' := s.(db := HotRestored(z, s.db, id, pc.got[id]));
        var next := Undeleted(pc.day, pc.got, pc.todo - {id}, id);
        ProcAfterHotRestore(z, s'.db, p.db, pc, next);
        ProcReplaced(z, s', p, q, next);
      } else {
        var next := Restoring(pc.day, pc.got, pc.todo - {id});
        SameGot(z, s.db, p.db, pc, next);
        ProcReplaced(z, s, p, q, next);
      }
    }
  }

  lemma SameGot(z: Compressor, db: Db, plain: Db, pc: Proc, next: Proc)
    requires db.events.Keys == plain.events.Keys && pc.IsRestore() && next.Restoring?
    requires ProcInv(z, db, plain, pc)
    requires next.day == pc.day && next.got == pc.got
    ensures ProcInv(z, db, plain, next)
  {
    forall i | i in db.events
      ensures CarriesOk(z, db, plain, next, i)
    {
      assert CarriesOk(z, db, plain, pc, i);
    }
  }

  lemma ProcAfterHotRestore(z: Compressor, db: Db, plain: Db, pc: Proc, next: Proc)
    requires db.events.Keys == plain.events.Keys && pc.Restoring? && next.Undeleted?
    requires ProcInv(z, db, plain, pc)
    requires next.day == pc.day && next.got == pc.got && next.id in pc.got && next.id !in db.markers
    ensures ProcInv(z, db, plain, next)
  {
    forall i | i in db.events
      ensures CarriesOk(z, db, plain, next, i)
    {
      assert CarriesOk(z, db, plain, pc, i);
    }
  }

  /** A process may move to any program point of its own kind whose knowledge holds. */
  lemma ProcReplaced(z: Compressor, s: Sys, p: Plain, q: Pid, pc: Proc)
    requires Inv(z, s, p) && ProcInv(z, s.db, p.db, pc) && q in s.procs
    requires s.procs[q].IsRestore() == pc.IsRestore() && s.procs[q].IsArchiver() == pc.IsArchiver()
    requires !pc.Emptied? && !pc.HasMasks?
    ensures Inv(z, s.(procs := s.procs[q := pc]), p)
  {
    NoneWith(s.db, s.procs, q, pc);
    WithProc(z, s, p, q, pc);
  }

  lemma NoneWith(db: Db, procs: map<Pid, Proc>, q: Pid, pc: Proc)
    requires NoneFromEmptied(db, procs) && !pc.Emptied?
    requires forall r :: r in procs && procs[r].Emptied? ==> HoldsNone(db, procs[r].day, pc)
    ensures NoneFromEmptied(db, procs[q := pc])
  {
    var procs' := procs[q := pc];
    forall a, b | a in procs' && b in procs' && procs'[a].Emptied?
      ensures HoldsNone(db, procs'[a].day, procs'[b])
    {
      assert a != q;
      if b != q {
        assert HoldsNone(db, procs[a].day, procs[b]);
      }
    }
  }

  lemma DropKeepsCarried(z: Compressor, db: Db, plain: Db, day: Day, id: Id, pc: Proc, i: Id)
    requires !pc.IsArchiver() && i in db.events && i in plain.events && CarriesOk(z, db, plain, pc, i)
    ensures CarriesOk(z, DayRowDropped(db, day, id), plain, pc, i)
  {
  }

  lemma DropKeepsRow(z: Compressor, db: Db, plain: Db, day: Day, id: Id, i: Id)
    requires i in db.events && i in plain.events && RowInvAt(z, db, plain, i)
    requires i == id ==> id !in db.markers
    ensures RowInvAt(z, DayRowDropped(db, day, id), plain, i)
  {
  }

  lemma DropKeepsShape(db: Db, plain: Db, day: Day, id: Id)
    requires Shape(db, plain)
    ensures Shape(DayRowDropped(db, day, id), plain) && SameCalls(db, DayRowDropped(db, day, id))
  {
    var db' := DayRowDropped(db, day, id);
    forall d, i | db'.RowIn(d, i).Some?
      ensures OnDay(db, d, i)
    {
      assert db.RowIn(d, i).Some? ==> OnDay(db, d, i);
    }
    MoveKeepsShape(db, db', plain);
  }

  lemma DropKeepsProc(z: Compressor, db: Db, plain: Db, day: Day, id: Id, pc: Proc)
    requires db.events.Keys == plain.events.Keys && !pc.IsArchiver() && ProcInv(z, db, plain, pc)
    ensures ProcInv(z, DayRowDropped(db, day, id), plain, pc)
  {
    forall i | i in db.events
      ensures CarriesOk(z, DayRowDropped(db, day, id), plain, pc, i)
    {
      DropKeepsCarried(z, db, plain, day, id, pc, i);
    }
    MoveKeepsProc(z, db, DayRowDropped(db, day, id), plain, pc);
  }

  lemma UndeletedIsUnmarked(z: Compressor, db: Db, plain: Db, pc: Proc)
    requires db.events.Keys == plain.events.Keys
    requires pc.Undeleted? && ProcInv(z, db, plain, pc)
    ensures pc.id in db.events ==> pc.id !in db.markers
  {
    if pc.id in db.events {
      assert CarriesOk(z, db, plain, pc, pc.id);
    }
  }

  lemma DropKeepsRows(z: Compressor, db: Db, plain: Db, day: Day, id: Id)
    requires db.events.Keys == plain.events.Keys && RowsInv(z, db, plain)
    requires id in db.events ==> id !in db.markers
    ensures RowsInv(z, DayRowDropped(db, day, id), plain)
  {
    forall i | i in db.events
      ensures RowInvAt(z, DayRowDropped(db, day, id), plain, i)
    {
      assert RowInvAt(z, db, plain, i);
      DropKeepsRow(z, db, plain, day, id, i);
    }
  }

  lemma DropMoves(z: Compressor, s: Sys, p: Plain, q: Pid)
    requires Inv(z, s, p) && q in s.procs && s.procs[q].Undeleted?
    ensures Inv(z, s.(db := DayRowDropped(s.db, s.procs[q].day, s.procs[q].id)), p)
  {
    var pc := s.procs[q];
    assert ProcInv(z, s.db, p.db, pc);
    DropKeepsShape(s.db, p.db, pc.day, pc.id);
    UndeletedIsUnmarked(z, s.db, p.db, pc);
    DropKeepsRows(z, s.db, p.db, pc.day, pc.id);
    forall r | r in s.procs
      ensures ProcInv(z, DayRowDropped(s.db, pc.day, pc.id), p.db, s.procs[r])
    {
      assert !s.procs[r].IsArchiver();
      DropKeepsProc(z, s.db, p.db, pc.day, pc.id, s.procs[r]);
    }
    NoneStays(s.db, DayRowDropped(s.db, pc.day, pc.id), s.procs);
    AssembleMove(z, s, p, DayRowDropped(s.db, pc.day, pc.id));
  }

  lemma DropDayRowKeeps(z: Compressor, s: Sys, p: Plain, q: Pid)
    requires Inv(z, s, p)
    ensures Inv(z, Step(z, s, DropDayRow(q)), p)
  {
    if q in s.procs && s.procs[q].Undeleted? {
      var pc := s.procs[q];
      DropMoves(z, s, p, q);
      var s' := s.(db := DayRowDropped(s.db, pc.day, pc.id));
      var next := Restoring(pc.day, pc.got, pc.todo);
      SameGot(z, s'.db, p.db, pc, next);
      ProcReplaced(z, s', p, q, next);
    }
  }

  // Steps of a process that touch no database.

  lemma ChosenKnows(z: Compressor, db: Db, plain: Db, day: Day, ids: set<Id>)
    requires Shape(db, plain) && ChoosesFrom(db, day, ids)
    ensures ProcInv(z, db, plain, Chosen(day, ids))
  {
  }

  lemma ChooseKeeps(z: Compressor, s: Sys, p: Plain, q: Pid, day: Day, ids: set<Id>)
    requires Inv(z, s, p)
    ensures Inv(z, Step(z, s, Choose(q, day, ids)), p)
  {
    if !s.Restores() && q !in s.procs && ChoosesFrom(s.db, day, ids) {
      ChosenKnows(z, s.db, p.db, day, ids);
      ProcAdded(z, s, p, q, Chosen(day, ids));
    }
  }

  lemma ReadBodiesCarried(z: Compressor, db: Db, plain: Db, pc: Proc, id: Id)
    requires id in db.events && id in plain.events && RowInvAt(z, db, plain, id)
    requires pc.Chosen? && CarriesOk(z, db, plain, pc, id)
    ensures CarriesOk(z, db, plain, HasBodies(pc.day, HotOf(db.events, pc.ids)), id)
  {
  }

  lemma ReadBodiesProc(z: Compressor, db: Db, plain: Db, pc: Proc)
    requires db.events.Keys == plain.events.Keys && RowsInv(z, db, plain)
    requires pc.Chosen? && ProcInv(z, db, plain, pc)
    ensures ProcInv(z, db, plain, HasBodies(pc.day, HotOf(db.events, pc.ids)))
  {
    forall id | id in db.events
      ensures CarriesOk(z, db, plain, HasBodies(pc.day, HotOf(db.events, pc.ids)), id)
    {
      assert RowInvAt(z, db, plain, id);
      ReadBodiesCarried(z, db, plain, pc, id);
    }
    forall id | id in HotOf(db.events, pc.ids)
      ensures OnDay(db, pc.day, id)
    {
      assert id in CarriedIds(pc);
    }
  }

  lemma ReadBodiesTaken(z: Compressor, s: Sys, q: Pid)
    requires !s.Restores() && q in s.procs && s.procs[q].Chosen?
    ensures var pc := s.procs[q];
            var rows := HotOf(s.db.events, pc.ids);
            Step(z, s, ReadBodies(q))
            == if rows == map[] then Ended(s, q) else s.(procs := s.procs[q := HasBodies(pc.day, rows)])
  {
  }

  lemma ReadBodiesMoves(z: Compressor, s: Sys, p: Plain, q: Pid)
    requires Inv(z, s, p) && !s.Restores() && q in s.procs && s.procs[q].Chosen?
    ensures var pc := s.procs[q];
            var rows := HotOf(s.db.events, pc.ids);
            Inv(z, if rows == map[] then Ended(s, q) else s.(procs := s.procs[q := HasBodies(pc.day, rows)]), p)
  {
    var pc := s.procs[q];
    if HotOf(s.db.events, pc.ids) == map[] {
      EndKeeps(z, s, p, q);
    } else {
      ReadBodiesProc(z, s.db, p.db, pc);
      ProcReplaced(z, s, p, q, HasBodies(pc.day, HotOf(s.db.events, pc.ids)));
    }
  }

  lemma ReadBodiesIdle(z: Compressor, s: Sys, q: Pid)
    requires s.Restores() || q !in s.procs || !s.procs[q].Chosen?
    ensures Step(z, s, ReadBodies(q)) == s
  {
  }

  lemma ReadBodiesKeeps(z: Compressor, s: Sys, p: Plain, q: Pid)
    requires Inv(z, s, p)
    ensures Inv(z, Step(z, s, ReadBodies(q)), p)
  {
    if !s.Restores() && q in s.procs && s.procs[q].Chosen? {
      ReadBodiesTaken(z, s, q);
      ReadBodiesMoves(z, s, p, q);
    } else {
      ReadBodiesIdle(z, s, q);
    }
  }

  lemma MasksKnown(z: Compressor, db: Db, plain: Db, pc: Proc)
    requires db.events.Keys == plain.events.Keys && pc.Written? && ProcInv(z, db, plain, pc) && pc.day in db.files
    ensures ProcInv(z, db, plain, HasMasks(pc.day, FileMasks(db.files[pc.day], pc.ids)))
  {
    forall id | id in FileMasks(db.files[pc.day], pc.ids)
      ensures OnDay(db, pc.day, id)
    {
      assert id in CarriedIds(pc);
    }
  }

  lemma ReadMasksTaken(z: Compressor, s: Sys, q: Pid)
    requires !s.Restores() && q in s.procs && s.procs[q].Written? && !ReadsVanishing(s, s.procs[q])
    ensures var pc := s.procs[q];
            Step(z, s, ReadMasks(q))
            == if pc.day !in s.db.files then Ended(s, q)
               else s.(procs := s.procs[q := HasMasks(pc.day, FileMasks(s.db.files[pc.day], pc.ids))])
  {
  }

  lemma ReadMasksIdle(z: Compressor, s: Sys, q: Pid)
    requires s.Restores() || q !in s.procs || !s.procs[q].Written? || ReadsVanishing(s, s.procs[q])
    ensures Step(z, s, ReadMasks(q)) == s
  {
  }

  lemma ReadMasksKeeps(z: Compressor, s: Sys, p: Plain, q: Pid)
    requires Inv(z, s, p)
    ensures Inv(z, Step(z, s, ReadMasks(q)), p)
  {
    if !s.Restores() && q in s.procs && s.procs[q].Written? && !ReadsVanishing(s, s.procs[q]) {
      ReadMasksTaken(z, s, q);
      if s.procs[q].day in s.db.files {
        MasksHeld(z, s, p, q);
      } else {
        EndKeeps(z, s, p, q);
      }
    } else {
      ReadMasksIdle(z, s, q);
    }
  }

  lemma MasksHeld(z: Compressor, s: Sys, p: Plain, q: Pid)
    requires Inv(z, s, p) && q in s.procs && s.procs[q].Written? && !ReadsVanishing(s, s.procs[q])
    requires s.procs[q].day in s.db.files
    ensures var pc := s.procs[q];
            Inv(z, s.(procs := s.procs[q := HasMasks(pc.day, FileMasks(s.db.files[pc.day], pc.ids))]), p)
  {
    var pc := s.procs[q];
    var next := HasMasks(pc.day, FileMasks(s.db.files[pc.day], pc.ids));
    MasksKnown(z, s.db, p.db, pc);
    forall r | r in s.procs && s.procs[r].Emptied?
      ensures HoldsNone(s.db, s.procs[r].day, next)
    {
      if s.procs[r] == Emptied(pc.day) {
        forall id | id in next.masks
          ensures id !in s.db.events
        {
          assert id in pc.ids && id in s.db.files[pc.day];
        }
      }
    }
    NoneWith(s.db, s.procs, q, next);
    WithProc(z, s, p, q, next);
  }

  function GotRows(db: Db, day: Day, ids: set<Id>): DayFile {
    map id | id in ids && id in FileOrEmpty(db, day) :: FileOrEmpty(db, day)[id]
  }

  lemma GotRowFresh(z: Compressor, db: Db, plain: Db, day: Day, ids: set<Id>, id: Id)
    requires id in db.events && id in plain.events && RowInvAt(z, db, plain, id)
    requires id in ids ==> id in db.markers && db.markers[id].day == day
    ensures var got := GotRows(db, day, ids);
            CarriesOk(z, db, plain, Restoring(day, got, got.Keys), id)
  {
  }

  lemma GotRowsFresh(z: Compressor, db: Db, plain: Db, day: Day, ids: set<Id>)
    requires Shape(db, plain) && RowsInv(z, db, plain) && MarkedOn(db, day, ids)
    ensures var got := GotRows(db, day, ids);
            ProcInv(z, db, plain, Restoring(day, got, got.Keys))
  {
    var got := GotRows(db, day, ids);
    var pc := Restoring(day, got, got.Keys);
    forall id | id in db.events
      ensures CarriesOk(z, db, plain, pc, id)
    {
      GotRowFresh(z, db, plain, day, ids, id);
    }
    forall id | id in CarriedIds(pc)
      ensures OnDay(db, day, id)
    {
      assert db.RowIn(day, id).Some?;
    }
  }

  /** A process may start wherever its knowledge holds, without mixing restores and archivers. */
  lemma ProcAdded(z: Compressor, s: Sys, p: Plain, q: Pid, pc: Proc)
    requires Inv(z, s, p) && ProcInv(z, s.db, p.db, pc) && q !in s.procs
    requires (pc.IsRestore() ==> !s.Archives()) && (pc.IsArchiver() ==> !s.Restores())
    requires !pc.Emptied? && !pc.HasMasks?
    ensures Inv(z, s.(procs := s.procs[q := pc]), p)
  {
    NoneWith(s.db, s.procs, q, pc);
    WithProc(z, s, p, q, pc);
  }

  lemma BeginRestoreKeeps(z: Compressor, s: Sys, p: Plain, q: Pid, day: Day, ids: set<Id>)
    requires Inv(z, s, p)
    ensures Inv(z, Step(z, s, BeginRestore(q, day, ids)), p)
  {
    if q !in s.procs && !s.Archives() && MarkedOn(s.db, day, ids) {
      var got := GotRows(s.db, day, ids);
      GotRowsFresh(z, s.db, p.db, day, ids);
      ProcAdded(z, s, p, q, Restoring(day, got, got.Keys));
      BeginRestoreTaken(z, s, q, day, ids);
    }
  }

  lemma BeginRestoreTaken(z: Compressor, s: Sys, q: Pid, day: Day, ids: set<Id>)
    requires q !in s.procs && !s.Archives() && MarkedOn(s.db, day, ids)
    ensures var got := GotRows(s.db, day, ids);
            Step(z, s, BeginRestore(q, day, ids)) == s.(procs := s.procs[q := Restoring(day, got, got.Keys)])
  {
  }

  // ---------- every action, every run ----------

  lemma StepKeeps(z: Compressor, s: Sys, p: Plain, a: Action)
    requires z.Lawful() && Inv(z, s, p)
    requires a.Deliver? ==> BodiesOk(a.ev.bodies)
    ensures Inv(z, Step(z, s, a), PlainStep(p, a))
  {
    match a
    case Deliver(ev) => DeliverKeeps(z, s, p, ev);
    case Delete(ids) => DeleteKeeps(z, s, p, ids);
    case Reprice(id, usd, source) => RepriceKeeps(z, s, p, id, usd, source);
    case SetToolNames(id, names) => SetToolNamesKeeps(z, s, p, id, names);
    case Choose(q, day, ids) => ChooseKeeps(z, s, p, q, day, ids);
    case ReadBodies(q) => ReadBodiesKeeps(z, s, p, q);
    case WriteDay(q) => WriteDayKeeps(z, s, p, q);
    case ReadMasks(q) => ReadMasksKeeps(z, s, p, q);
    case MarkAndClear(q) => MarkAndClearKeeps(z, s, p, q);
    case BeginCollect(q, day) => BeginCollectKeeps(z, s, p, q, day);
    case AskMarkers(q, chunk) => AskMarkersKeeps(z, s, p, q, chunk);
    case AskHot(q) => AskHotKeeps(z, s, p, q);
    case DeleteOrphans(q, chunk) => DeleteOrphansKeeps(z, s, p, q, chunk);
    case CountLeft(q) => CountLeftKeeps(z, s, p, q);
    case RemoveFile(q) => RemoveFileKeeps(z, s, p, q);
    case BeginRestore(q, day, ids) => BeginRestoreKeeps(z, s, p, q, day, ids);
    case RestoreHot(q, id) => RestoreHotKeeps(z, s, p, q, id);
    case DropDayRow(q) => DropDayRowKeeps(z, s, p, q);
    case Stop(q) => EndKeeps(z, s, p, q);
  }

  lemma StartInv(z: Compressor, db: Db)
    requires NeverArchived(db)
    ensures Inv(z, Start(db), PlainStart(db))
  {
    forall id | id in db.events
      ensures RowInvAt(z, db, db, id)
    {
    }
  }

  lemma {:induction false} TraceKeeps(z: Compressor, db: Db, run: seq<Action>, trace: seq<Pair>, n: nat)
    requires z.Lawful() && NeverArchived(db) && DeliveriesOk(run) && IsTrace(z, db, run, trace) && n <= |run|
    ensures Inv(z, trace[n].s, trace[n].p)
    decreases n
  {
    if n == 0 {
      StartInv(z, db);
    } else {
      TraceKeeps(z, db, run, trace, n - 1);
      StepKeeps(z, trace[n - 1].s, trace[n - 1].p, run[n - 1]);
      assert Steps(z, trace[n - 1], run[n - 1], trace[n]);
    }
  }

  /** The invariant holds in every reachable state. */
  lemma ReachableInv(z: Compressor, s: Sys, p: Plain)
    requires z.Lawful() && Reachable(z, s, p)
    ensures Inv(z, s, p)
  {
    var db :| ReachableFrom(z, db, s, p);
    var run, trace :| ReachedBy(z, db, run, trace, s, p);
    TraceKeeps(z, db, run, trace, |run|);
  }

  /** One more action reaches one more state. */
  lemma ReachOne(z: Compressor, db: Db, s: Sys, p: Plain, a: Action, s': Sys, p': Plain)
    requires ReachableFrom(z, db, s, p) && (a.Deliver? ==> BodiesOk(a.ev.bodies))
    requires Steps(z, Pair(s, p), a, Pair(s', p'))
    ensures ReachableFrom(z, db, s', p')
  {
    var run, trace :| ReachedBy(z, db, run, trace, s, p);
    var run', trace' := run + [a], trace + [Pair(s', p')];
    forall i | 0 <= i < |run'|
      ensures Steps(z, trace'[i], run'[i], trace'[i + 1])
      ensures run'[i].Deliver? ==> BodiesOk(run'[i].ev.bodies)
    {
      if i < |run| {
        assert run'[i] == run[i] && trace'[i] == trace[i] && trace'[i + 1] == trace[i + 1];
        assert Steps(z, trace[i], run[i], trace[i + 1]);
      }
    }
    assert ReachedBy(z, db, run', trace', s', p');
  }

  /** Every run from a reachable state ends in one. */
  lemma {:induction false} ReachRun(z: Compressor, db: Db, s: Sys, p: Plain, more: seq<Action>)
    requires ReachableFrom(z, db, s, p) && DeliveriesOk(more)
    ensures ReachableFrom(z, db, Run(z, s, more), PlainRun(p, more))
    decreases |more|
  {
    if more != [] {
      var init, a := more[..|more| - 1], more[|more| - 1];
      ReachRun(z, db, s, p, init);
      RunUnfolds(z, s, p, more, init, a);
      ReachOne(z, db, Run(z, s, init), PlainRun(p, init), a, Run(z, s, more), PlainRun(p, more));
    }
  }

  lemma {:induction false} RunUnfolds(z: Compressor, s: Sys, p: Plain, run: seq<Action>, init: seq<Action>, a: Action)
    requires run != [] && init == run[..|run| - 1] && a == run[|run| - 1]
    ensures Run(z, s, run) == Step(z, Run(z, s, init), a) && PlainRun(p, run) == PlainStep(PlainRun(p, init), a)
  {
  }

  // ---------- runs ----------

  lemma {:induction false} RunAppend(z: Compressor, s: Sys, first: seq<Action>, more: seq<Action>)
    ensures Run(z, s, first + more) == Run(z, Run(z, s, first), more)
    decreases |more|
  {
    if more == [] {
      assert first + more == first;
    } else {
      var init, last := more[..|more| - 1], more[|more| - 1];
      RunAppend(z, s, first, init);
      assert (first + more)[..|first + more| - 1] == first + init;
    }
  }

  lemma Extend(z: Compressor, s: Sys, run: seq<Action>, a: Action, mid: Sys, next: Sys)
    requires Run(z, s, run) == mid && Step(z, mid, a) == next
    ensures Run(z, s, run + [a]) == next
  {
    assert (run + [a])[..|run|] == run;
  }

  /** One process alone, standing at `pc`. */
  function Alone(db: Db, pc: Proc, legacyBelow: Id): Sys {
    Sys(db, map[0 := pc], legacyBelow)
  }
}
