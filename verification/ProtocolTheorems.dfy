/** What the archival protocol guarantees of every state any run can reach. */
module ProtocolTheorems {
  import opened Prelude
  import opened Events
  import opened BlobCodec
  import opened Merge
  import opened Deliveries
  import opened Billing
  import opened ArchiveDb
  import opened Protocol
  import opened ProtocolProofs

  // ---------- nothing is lost, and reads cannot tell ----------

  /** A body of a live event is in its hot column, or decodes from its marked day-file row, byte for byte. */
  ghost predicate Kept(z: Compressor, db: Db, id: Id, c: Col, b: Bytes)
    requires id in db.events
  {
    || (c in db.events[id].bodies && db.events[id].bodies[c] == b)
    || (id in db.markers && c in db.markers[id].mask
        && db.RowIn(db.markers[id].day, id).Some?
        && c in db.RowIn(db.markers[id].day, id).value.mask
        && ReadCol(z, db.RowIn(db.markers[id].day, id).value, c) == Some(b))
  }

  lemma NoBodyLost(z: Compressor, s: Sys, p: Plain, id: Id, c: Col)
    requires z.Lawful() && Reachable(z, s, p)
    requires id in p.db.events && c in p.db.events[id].bodies
    ensures id in s.db.events && Kept(z, s.db, id, c, p.db.events[id].bodies[c])
  {
    ReachableInv(z, s, p);
    assert RowInvAt(z, s.db, p.db, id);
  }

  lemma BodyStays(p: Plain, a: Action, id: Id, c: Col, b: Bytes)
    requires p.db.markers == map[] && id in p.db.events && id < p.db.nextId
    requires c in p.db.events[id].bodies && p.db.events[id].bodies[c] == b && |b| > 0
    ensures var p' := PlainStep(p, a);
            id in p'.db.events ==> c in p'.db.events[id].bodies && p'.db.events[id].bodies[c] == b
  {
  }

  lemma GoneStaysGone(p: Plain, a: Action, id: Id)
    requires id < p.db.nextId
    ensures id < PlainStep(p, a).db.nextId
    ensures id !in p.db.events ==> id !in PlainStep(p, a).db.events
  {
  }

  ghost predicate HasBody(p: Plain, id: Id, c: Col, b: Bytes) {
    && id < p.db.nextId
    && (id in p.db.events ==> c in p.db.events[id].bodies && p.db.events[id].bodies[c] == b)
  }

  lemma BodyStaysStep(z: Compressor, s: Sys, p: Plain, a: Action, id: Id, c: Col, b: Bytes)
    requires Inv(z, s, p) && HasBody(p, id, c, b)
    ensures HasBody(PlainStep(p, a), id, c, b)
  {
    GoneStaysGone(p, a, id);
    if id in p.db.events {
      assert RowInvAt(z, s.db, p.db, id);
      BodyStays(p, a, id, c, b);
    }
  }

  lemma {:induction false} BodyStaysAlong(z: Compressor, db: Db, run: seq<Action>, trace: seq<Pair>, i: nat, n: nat,
                                          id: Id, c: Col, b: Bytes)
    requires z.Lawful() && NeverArchived(db) && DeliveriesOk(run) && IsTrace(z, db, run, trace) && i <= n <= |run|
    requires HasBody(trace[i].p, id, c, b)
    ensures HasBody(trace[n].p, id, c, b)
    decreases n
  {
    if n > i {
      BodyStaysAlong(z, db, run, trace, i, n - 1, id, c, b);
      TraceKeeps(z, db, run, trace, n - 1);
      BodyStaysStep(z, trace[n - 1].s, trace[n - 1].p, run[n - 1], id, c, b);
      assert Steps(z, trace[n - 1], run[n - 1], trace[n]);
    }
  }

  lemma HotBodyIsPlain(z: Compressor, s: Sys, p: Plain, id: Id, c: Col)
    requires Inv(z, s, p) && id in s.db.events && c in s.db.events[id].bodies
    ensures HasBody(p, id, c, s.db.events[id].bodies[c])
  {
    assert RowInvAt(z, s.db, p.db, id);
  }

  /** A body a hot row holds at any moment of any run is still there, byte for byte, as long as its event is. */
  lemma NoBodyEverLost(z: Compressor, db: Db, run: seq<Action>, trace: seq<Pair>, s: Sys, p: Plain, i: nat, id: Id, c: Col)
    requires z.Lawful() && ReachedBy(z, db, run, trace, s, p) && i <= |run|
    requires id in trace[i].s.db.events && c in trace[i].s.db.events[id].bodies && id in s.db.events
    ensures Kept(z, s.db, id, c, trace[i].s.db.events[id].bodies[c])
  {
    TraceKeeps(z, db, run, trace, i);
    HotBodyIsPlain(z, trace[i].s, trace[i].p, id, c);
    BodyStaysAlong(z, db, run, trace, i, |run|, id, c, trace[i].s.db.events[id].bodies[c]);
    assert ReachableFrom(z, db, s, p);
    ReachableInv(z, s, p);
    NoBodyLost(z, s, p, id, c);
  }

  lemma HydrateRefines(z: Compressor, db: Db, plain: Db, id: Id)
    requires id in db.events && id in plain.events && RowInvAt(z, db, plain, id)
    ensures Hydrated(z, db, id) == plain.events[id]
    ensures HydrateNotice(z, db, id) != Missing
  {
    var e, pe := db.events[id], plain.events[id];
    if id in db.markers {
      var row := db.RowIn(db.markers[id].day, id).value;
      forall c: Col
        ensures c in Filled(z, row, e) <==> c in pe.bodies
        ensures c in pe.bodies ==> Filled(z, row, e)[c] == pe.bodies[c]
      {
      }
      assert Filled(z, row, e) == pe.bodies;
      assert BadCols(z, row) == {};
    } else {
      assert e.bodies == pe.bodies;
    }
  }

  /** Every read returns the row, all columns of it, that a store which never archives would return. */
  lemma ReadsRefinePlainStore(z: Compressor, s: Sys, p: Plain)
    requires z.Lawful() && Reachable(z, s, p)
    ensures s.db.events.Keys == p.db.events.Keys && s.db.byRequest == p.db.byRequest
    ensures forall id :: id in p.db.events ==>
              Hydrated(z, s.db, id) == p.db.events[id] && HydrateNotice(z, s.db, id) != Missing
  {
    ReachableInv(z, s, p);
    forall id | id in p.db.events
      ensures Hydrated(z, s.db, id) == p.db.events[id] && HydrateNotice(z, s.db, id) != Missing
    {
      assert RowInvAt(z, s.db, p.db, id);
      HydrateRefines(z, s.db, p.db, id);
    }
  }

  // ---------- a read made of three reads ----------

  /** Anything but a restore commit, a deletion or a delivery of the row `id`, with request ids as indexed in `db`. */
  predicate Quiet(db: Db, a: Action, id: Id) {
    && (a.RestoreHot? ==> a.id != id) && (a.Delete? ==> id !in a.ids)
    && (a.Deliver? ==> !(a.ev.fixed.requestId in db.byRequest && db.byRequest[a.ev.fixed.requestId] == id))
  }

  predicate MarkerGrows(m: Marker, later: Option<Marker>) {
    later.Some? && m.day == later.value.day && m.mask <= later.value.mask
  }

  /** What a quiet run leaves of the row as it was in `s0`. */
  ghost predicate RowStands(s0: Sys, p0: Plain, s: Sys, p: Plain, id: Id) {
    && id in s.db.events && id in p0.db.events && id in p.db.events && id < s.db.nextId && id < p.db.nextId
    && s.db.byRequest == p.db.byRequest && s.db.events.Keys == p.db.events.Keys
    && p.db.events[id].bodies == p0.db.events[id].bodies
    && (id in s0.db.markers ==> MarkerGrows(s0.db.markers[id], s.db.MarkerOf(id)))
    && (forall rid :: rid in s.db.byRequest && s.db.byRequest[rid] == id ==>
          rid in s0.db.byRequest && s0.db.byRequest[rid] == id)
  }

  lemma MarkerStands(z: Compressor, s: Sys, a: Action, id: Id)
    requires (a.RestoreHot? ==> a.id != id) && (a.Delete? ==> id !in a.ids) && id in s.db.markers
    ensures MarkerGrows(s.db.markers[id], Step(z, s, a).db.MarkerOf(id))
  {
  }

  lemma BodiesStand(p: Plain, a: Action, id: Id)
    requires id in p.db.events && id < p.db.nextId && (a.Delete? ==> id !in a.ids)
    requires a.Deliver? ==> !(a.ev.fixed.requestId in p.db.byRequest && p.db.byRequest[a.ev.fixed.requestId] == id)
    ensures var p' := PlainStep(p, a);
            && id in p'.db.events && id < p'.db.nextId && p'.db.events[id].bodies == p.db.events[id].bodies
            && forall rid :: rid in p'.db.byRequest && p'.db.byRequest[rid] == id ==>
                 rid in p.db.byRequest && p.db.byRequest[rid] == id
  {
  }

  lemma RowStandsStep(z: Compressor, s0: Sys, p0: Plain, s: Sys, p: Plain, a: Action, s': Sys, p': Plain, id: Id)
    requires Inv(z, s', p') && RowStands(s0, p0, s, p, id) && Quiet(s0.db, a, id)
    requires s' == Step(z, s, a) && p' == PlainStep(p, a)
    ensures RowStands(s0, p0, s', p', id)
  {
    BodiesStand(p, a, id);
    if id in s.db.markers {
      MarkerStands(z, s, a, id);
    }
  }

  lemma {:induction false} RowStandsRun(z: Compressor, db: Db, s0: Sys, p0: Plain, s: Sys, p: Plain, more: seq<Action>, id: Id)
    requires z.Lawful() && ReachableFrom(z, db, s, p) && DeliveriesOk(more) && RowStands(s0, p0, s, p, id)
    requires forall i :: 0 <= i < |more| ==> Quiet(s0.db, more[i], id)
    ensures ReachableFrom(z, db, Run(z, s, more), PlainRun(p, more))
    ensures RowStands(s0, p0, Run(z, s, more), PlainRun(p, more), id)
    decreases |more|
  {
    ReachRun(z, db, s, p, more);
    if more != [] {
      var init, a := more[..|more| - 1], more[|more| - 1];
      assert forall i :: 0 <= i < |init| ==> init[i] == more[i];
      RowStandsRun(z, db, s0, p0, s, p, init, id);
      RunUnfolds(z, s, p, more, init, a);
      ReachableInv(z, Run(z, s, more), PlainRun(p, more));
      RowStandsStep(z, s0, p0, Run(z, s, init), PlainRun(p, init), a, Run(z, s, more), PlainRun(p, more), id);
    }
  }

  /** GetEvent and hydrate as they read: the row, then its marker, then its day row. */
  function ReadInParts(z: Compressor, e: Event, marker: Option<Marker>, files: Db, id: Id): Event {
    if marker.None? || files.RowIn(marker.value.day, id).None? then e
    else e.WithBodies(Filled(z, files.RowIn(marker.value.day, id).value, e))
  }

  /**
   The event row read in one state, its marker in a later one and its day row in a later one still: whatever
   archivers, collectors, other deliveries, purges of other rows and repricing do in between, the read is the row
   of the store that never archives, as of the first of the three.
   */
  lemma ReadInPartsRefines(z: Compressor, db: Db, s: Sys, p: Plain, first: seq<Action>, second: seq<Action>, id: Id)
    requires z.Lawful() && ReachableFrom(z, db, s, p) && id in s.db.events
    requires DeliveriesOk(first) && DeliveriesOk(second)
    requires forall i :: 0 <= i < |first| ==> Quiet(s.db, first[i], id)
    requires forall i :: 0 <= i < |second| ==> Quiet(s.db, second[i], id)
    ensures id in p.db.events
    ensures var s2 := Run(z, s, first);
            var s3 := Run(z, s2, second);
            ReadInParts(z, s.db.events[id], s2.db.MarkerOf(id), s3.db, id) == p.db.events[id]
  {
    ReachableInv(z, s, p);
    RowStandsRun(z, db, s, p, s, p, first, id);
    var s2, p2 := Run(z, s, first), PlainRun(p, first);
    QuietLater(s, p, s2, p2, second, id);
    RowStandsRun(z, db, s2, p2, s2, p2, second, id);
    var s3, p3 := Run(z, s2, second), PlainRun(p2, second);
    ReachableInv(z, s3, p3);
    assert RowInvAt(z, s.db, p.db, id) && RowInvAt(z, s3.db, p3.db, id);
    if id in s2.db.markers {
      PartsFit(z, s, p, s2, p2, s3, p3, id);
    } else {
      UnmarkedIsWhole(z, s.db, p.db, id);
    }
  }

  lemma QuietLater(s: Sys, p: Plain, s2: Sys, p2: Plain, more: seq<Action>, id: Id)
    requires RowStands(s, p, s2, p2, id)
    requires forall i :: 0 <= i < |more| ==> Quiet(s.db, more[i], id)
    ensures forall i :: 0 <= i < |more| ==> Quiet(s2.db, more[i], id)
  {
  }

  lemma PartsFit(z: Compressor, s: Sys, p: Plain, s2: Sys, p2: Plain, s3: Sys, p3: Plain, id: Id)
    requires id in s.db.events && id in p.db.events && id in s3.db.events && id in p3.db.events
    requires RowInvAt(z, s.db, p.db, id) && RowInvAt(z, s3.db, p3.db, id)
    requires RowStands(s, p, s2, p2, id) && RowStands(s2, p2, s3, p3, id) && id in s2.db.markers
    ensures ReadInParts(z, s.db.events[id], s2.db.MarkerOf(id), s3.db, id) == p.db.events[id]
  {
    var e := s.db.events[id];
    var day := s2.db.markers[id].day;
    MarkedRowHolds(z, s3.db, p3.db, id);
    FilledIsWhole(z, e, p.db.events[id], s.db.MarkerOf(id), s.db.RowIn(DayOf(e.fixed.startedAt), id),
                  s3.db.RowIn(day, id).value);
  }

  lemma MarkedRowHolds(z: Compressor, db: Db, plain: Db, id: Id)
    requires id in db.events && id in plain.events && id in db.markers && RowInvAt(z, db, plain, id)
    ensures var row := db.RowIn(db.markers[id].day, id);
            row.Some? && RowHolds(z, row.value, plain.events[id].bodies) && db.markers[id].mask <= row.value.mask
  {
  }

  /**
   In any state at all, corrupt files included: hydrate never touches a non-empty hot column, fills an empty
   one exactly when its own blob decodes, and says Missing only when nothing could be filled.
   */
  lemma HydrateColumnByColumn(z: Compressor, db: Db, id: Id, c: Col)
    requires id in db.events && id in db.markers && db.RowIn(db.markers[id].day, id).Some?
    ensures var e, row, h := db.events[id], db.RowIn(db.markers[id].day, id).value, Hydrated(z, db, id);
            && (!e.Empty(c) ==> c in h.bodies && h.bodies[c] == e.bodies[c])
            && (e.Empty(c) && c in row.mask && c !in BadCols(z, row) ==>
                  c in h.bodies && Some(h.bodies[c]) == ReadCol(z, row, c))
            && (e.Empty(c) && (c !in row.mask || c in BadCols(z, row)) ==>
                  (c in h.bodies <==> c in e.bodies) && h.Empty(c))
            && (HydrateNotice(z, db, id) == Missing ==> h == e && BadCols(z, row) != {})
    ensures var e, row := db.events[id], db.RowIn(db.markers[id].day, id).value;
            var supplied := exists k :: k in row.mask && e.Empty(k) && ReadCol(z, row, k).Some?;
            var bad := exists k :: k in row.mask && ReadCol(z, row, k).None?;
            HydrateNotice(z, db, id) == if supplied then Loaded else if bad then Missing else NotArchived
  {
    NoticeExactly(z, db, id);
    var e, row := db.events[id], db.RowIn(db.markers[id].day, id).value;
    if HydrateNotice(z, db, id) == Missing {
      assert forall k :: k in row.mask ==> !Fills(z, row, e, k);
      assert Filled(z, row, e) == e.bodies;
    }
  }

  lemma NoticeExactly(z: Compressor, db: Db, id: Id)
    requires id in db.events && id in db.markers && db.RowIn(db.markers[id].day, id).Some?
    ensures var e, row := db.events[id], db.RowIn(db.markers[id].day, id).value;
            var supplied := exists k :: k in row.mask && e.Empty(k) && ReadCol(z, row, k).Some?;
            var bad := exists k :: k in row.mask && ReadCol(z, row, k).None?;
            HydrateNotice(z, db, id) == if supplied then Loaded else if bad then Missing else NotArchived
  {
    var e, row := db.events[id], db.RowIn(db.markers[id].day, id).value;
    if k :| k in row.mask && e.Empty(k) && ReadCol(z, row, k).Some? {
      assert Fills(z, row, e, k);
    }
    if k :| k in row.mask && ReadCol(z, row, k).None? {
      assert k in BadCols(z, row);
    }
  }

  // ---------- markers, presence, tool names ----------

  /** The marker may lag the day file but never over-claims, and every emptied column has its bit. */
  lemma MarkerNeverOverclaims(z: Compressor, s: Sys, p: Plain, id: Id)
    requires z.Lawful() && Reachable(z, s, p) && id in s.db.events
    ensures id in p.db.events
    ensures id in s.db.markers ==>
              var row := s.db.RowIn(s.db.markers[id].day, id);
              && s.db.markers[id].day == DayOf(s.db.events[id].fixed.startedAt) && row.Some?
              && s.db.markers[id].mask <= row.value.mask <= p.db.events[id].bodies.Keys
    ensures forall c :: c in p.db.events[id].bodies && c !in s.db.events[id].bodies ==> c in s.db.Archived(id)
    ensures forall c :: Present(s.db.events[id], s.db.Archived(id), c) <==> c in p.db.events[id].bodies
  {
    ReachableInv(z, s, p);
    MarkerOfRow(z, s.db, p.db, id);
  }

  lemma MarkerOfRow(z: Compressor, db: Db, plain: Db, id: Id)
    requires id in db.events && id in plain.events && RowInvAt(z, db, plain, id)
    ensures id in db.markers ==>
              var row := db.RowIn(db.markers[id].day, id);
              && db.markers[id].day == DayOf(db.events[id].fixed.startedAt) && row.Some?
              && db.markers[id].mask <= row.value.mask <= plain.events[id].bodies.Keys
    ensures forall c :: c in plain.events[id].bodies && c !in db.events[id].bodies ==> c in db.Archived(id)
    ensures forall c :: Present(db.events[id], db.Archived(id), c) <==> c in plain.events[id].bodies
  {
    var row := db.RowIn(DayOf(db.events[id].fixed.startedAt), id);
    forall c: Col
      ensures Present(db.events[id], db.Archived(id), c) <==> c in plain.events[id].bodies
    {
      PresenceExact(z, db.events[id], plain.events[id], db.MarkerOf(id), row, c);
    }
    if id in db.markers {
      assert forall c :: c in row.value.mask ==> c in plain.events[id].bodies;
    }
  }

  /**
   An archived request body always has its tool names, and req_tool_names is NULL exactly when the call has no
   request body, hot or archived: for every row but those that awaited the backfill in the starting database,
   and for those too from the first merge on.
   */
  lemma ToolNamesFollowTheBody(z: Compressor, db: Db, s: Sys, p: Plain, id: Id)
    requires z.Lawful() && ReachableFrom(z, db, s, p) && id in s.db.events
    ensures Req in s.db.Archived(id) ==> s.db.events[id].toolNames.Some?
    ensures s.db.events[id].toolNames.Some? ==> Present(s.db.events[id], s.db.Archived(id), Req)
    ensures (s.db.events[id].toolNames.Some? <==> Present(s.db.events[id], s.db.Archived(id), Req))
       <==> !AwaitsBackfill(s.db.events[id])
    ensures AwaitsBackfill(s.db.events[id]) ==> id in db.events && AwaitsBackfill(db.events[id])
  {
    ReachableInv(z, s, p);
    ToolNamesOfRow(z, s.db, p.db, id);
    var run, trace :| ReachedBy(z, db, run, trace, s, p);
    OnlyOldAwait(z, db, run, trace, |run|);
    HotRowAwaits(z, s.db, p.db, id);
  }

  lemma ToolNamesOfRow(z: Compressor, db: Db, plain: Db, id: Id)
    requires id in db.events && id in plain.events && RowInvAt(z, db, plain, id)
    ensures Req in db.Archived(id) ==> db.events[id].toolNames.Some?
    ensures db.events[id].toolNames.Some? ==> Present(db.events[id], db.Archived(id), Req)
    ensures (db.events[id].toolNames.Some? <==> Present(db.events[id], db.Archived(id), Req))
       <==> !AwaitsBackfill(db.events[id])
  {
    MarkerOfRow(z, db, plain, id);
  }

  lemma HotRowAwaits(z: Compressor, db: Db, plain: Db, id: Id)
    requires id in db.events && id in plain.events && RowInvAt(z, db, plain, id)
    ensures AwaitsBackfill(db.events[id]) ==> AwaitsBackfill(plain.events[id])
  {
  }

  /** Only rows that awaited the backfill at the start still can. */
  predicate AwaitSince(db: Db, now: Db) {
    && now.markers == map[]
    && forall i :: i in now.events && AwaitsBackfill(now.events[i]) ==> i in db.events && AwaitsBackfill(db.events[i])
  }

  lemma AwaitSinceStep(db: Db, before: Plain, a: Action)
    requires AwaitSince(db, before.db) && (a.Deliver? ==> BodiesOk(a.ev.bodies))
    requires forall i :: i in before.db.events ==> BodiesOk(before.db.events[i].bodies)
    ensures AwaitSince(db, PlainStep(before, a).db)
  {
    var after := PlainStep(before, a).db;
    forall i | i in after.events && AwaitsBackfill(after.events[i])
      ensures i in before.db.events && AwaitsBackfill(before.db.events[i])
    {
      if a.Deliver? && i in before.db.events && after.events[i] != before.db.events[i] {
        MergedAwaits(before.db.events[i], a.ev);
      }
    }
  }

  lemma {:induction false} OnlyOldAwait(z: Compressor, db: Db, run: seq<Action>, trace: seq<Pair>, n: nat)
    requires z.Lawful() && NeverArchived(db) && DeliveriesOk(run) && IsTrace(z, db, run, trace) && n <= |run|
    ensures AwaitSince(db, trace[n].p.db)
    decreases n
  {
    if n > 0 {
      OnlyOldAwait(z, db, run, trace, n - 1);
      AwaitsAt(z, db, run, trace, n - 1);
    }
  }

  lemma AwaitsAt(z: Compressor, db: Db, run: seq<Action>, trace: seq<Pair>, n: nat)
    requires z.Lawful() && NeverArchived(db) && DeliveriesOk(run) && IsTrace(z, db, run, trace) && n < |run|
    requires AwaitSince(db, trace[n].p.db)
    ensures AwaitSince(db, trace[n + 1].p.db)
  {
    TraceKeeps(z, db, run, trace, n);
    assert Steps(z, trace[n], run[n], trace[n + 1]);
    AwaitsNext(z, db, trace[n], run[n], trace[n + 1]);
  }

  lemma AwaitsNext(z: Compressor, db: Db, c: Pair, a: Action, c': Pair)
    requires Inv(z, c.s, c.p) && Steps(z, c, a, c') && AwaitSince(db, c.p.db)
    requires a.Deliver? ==> BodiesOk(a.ev.bodies)
    ensures AwaitSince(db, c'.p.db)
  {
    PlainBodiesOk(z, c.s, c.p);
    AwaitSinceStep(db, c.p, a);
  }

  lemma PlainBodiesOk(z: Compressor, s: Sys, p: Plain)
    requires Inv(z, s, p)
    ensures forall i :: i in p.db.events ==> BodiesOk(p.db.events[i].bodies)
  {
    forall i | i in p.db.events
      ensures BodiesOk(p.db.events[i].bodies)
    {
      assert RowInvAt(z, s.db, p.db, i);
    }
  }

  /** A merge always writes the names of a request body it leaves. */
  lemma MergedAwaits(e: Event, ev: Event)
    requires BodiesOk(e.bodies) && BodiesOk(ev.bodies)
    ensures !AwaitsBackfill(Merged(e, {}, ev))
  {
  }

  // ---------- coverage only grows ----------

  predicate Shrinks(a: Action) {
    a.Delete? || a.DeleteOrphans? || a.RemoveFile? || a.RestoreHot? || a.DropDayRow?
  }

  /** A day row loses no column and no cell, and every cell outside the columns written stays as it was. */
  predicate RowGrows(row: DayRow, row': DayRow, written: Mask) {
    && row'.mask == row.mask + written
    && row.codecs.Keys <= row'.codecs.Keys && row'.codecs - written == row.codecs - written
    && row.lengths.Keys <= row'.lengths.Keys && row'.lengths - written == row.lengths - written
    && row.blobs.Keys <= row'.blobs.Keys && row'.blobs - written == row.blobs - written
  }

  /** The columns of one day row that an action writes. */
  function WrittenBy(s: Sys, a: Action, day: Day, id: Id): Mask {
    if a.WriteDay? && !s.Restores() && a.p in s.procs && s.procs[a.p].HasBodies? && s.procs[a.p].day == day
       && id in s.procs[a.p].rows
    then s.procs[a.p].rows[id].Keys else {}
  }

  lemma MarkersGrow(z: Compressor, s: Sys, a: Action, id: Id)
    requires !Shrinks(a) && id in s.db.markers
    ensures var m := Step(z, s, a).db.markers;
            id in m && m[id].day == s.db.markers[id].day && s.db.markers[id].mask <= m[id].mask
  {
  }

  lemma FilesUntouched(z: Compressor, s: Sys, a: Action)
    requires !Shrinks(a) && !a.WriteDay?
    ensures Step(z, s, a).db.files == s.db.files
  {
  }

  lemma WriteGrows(z: Compressor, s: Sys, q: Pid, day: Day, id: Id)
    requires s.db.RowIn(day, id).Some?
    ensures var row := Step(z, s, WriteDay(q)).db.RowIn(day, id);
            row.Some? && RowGrows(s.db.RowIn(day, id).value, row.value, WrittenBy(s, WriteDay(q), day, id))
  {
    if q in s.procs && s.procs[q].HasBodies? && !s.Restores() {
      DayRowWritten(z, s.db, s.procs[q].day, s.procs[q].rows, day, id);
    }
  }

  lemma DayRowWritten(z: Compressor, db: Db, at: Day, rows: map<Id, Bodies>, day: Day, id: Id)
    requires db.RowIn(day, id).Some?
    ensures DayWritten(z, db, at, rows).RowIn(day, id).Some?
    ensures RowGrows(db.RowIn(day, id).value, DayWritten(z, db, at, rows).RowIn(day, id).value,
                     if at == day && id in rows then rows[id].Keys else {})
  {
    if at == day && id in rows {
      UpsertGrows(z, db.files[day][id], rows[id]);
    }
  }

  lemma UpsertGrows(z: Compressor, row: DayRow, b: Bodies)
    ensures RowGrows(row, Upserted(Some(row), EncodedRow(z, b)), b.Keys)
  {
    var more := EncodedRow(z, b);
    OverlayGrows(row.codecs, more.codecs);
    OverlayGrows(row.lengths, more.lengths);
    OverlayGrows(row.blobs, more.blobs);
    assert more.codecs.Keys == b.Keys && more.lengths.Keys == b.Keys && more.blobs.Keys == b.Keys;
  }

  lemma OverlayGrows<V>(cells: map<Col, V>, more: map<Col, V>)
    ensures cells.Keys <= (cells + more).Keys && (cells + more) - more.Keys == cells - more.Keys
  {
  }

  /**
   Outside deletion, collection and restore, no marker and no day row loses a column, in any state: a marker keeps
   its day, and a day row changes only in the cells of the columns that a write of its own day puts there.
   */
  lemma CoverageGrows(z: Compressor, s: Sys, a: Action, day: Day, id: Id)
    requires !Shrinks(a)
    ensures id in s.db.markers ==>
              var m := Step(z, s, a).db.markers;
              id in m && m[id].day == s.db.markers[id].day && s.db.markers[id].mask <= m[id].mask
    ensures s.db.RowIn(day, id).Some? ==>
              var row := Step(z, s, a).db.RowIn(day, id);
              row.Some? && RowGrows(s.db.RowIn(day, id).value, row.value, WrittenBy(s, a, day, id))
  {
    if id in s.db.markers {
      MarkersGrow(z, s, a, id);
    }
    if s.db.RowIn(day, id).Some? {
      if a.WriteDay? {
        WriteGrows(z, s, a.p, day, id);
      } else {
        FilesUntouched(z, s, a);
      }
    }
  }

  // ---------- garbage collection ----------

  /** In every reachable state a day row whose event is present has a marker or a hot body beside it. */
  lemma DayRowOfPresentEventIsLive(z: Compressor, s: Sys, p: Plain, day: Day, id: Id)
    requires z.Lawful() && Reachable(z, s, p)
    requires s.db.RowIn(day, id).Some? && id in s.db.events
    ensures s.db.Live(id)
  {
    ReachableInv(z, s, p);
    assert RowInvAt(z, s.db, p.db, id) && OnDay(s.db, day, id);
    RowOfLiveEvent(z, s.db, p.db, id);
  }

  /**
   One pass over the day files, from any reachable state, leaves no row of a deleted event, keeps every row
   of a present one, and leaves the hot database alone.
   */
  lemma GcPassCollectsExactlyTheOrphans(z: Compressor, s: Sys, p: Plain, days: seq<Day>, day: Day, id: Id)
    requires z.Lawful() && Reachable(z, s, p)
    requires forall d :: d in s.db.files ==> d in days
    ensures FilesCollected(s.db, days).events == s.db.events && FilesCollected(s.db, days).markers == s.db.markers
    ensures FilesCollected(s.db, days).RowIn(day, id) == if id in s.db.events then s.db.RowIn(day, id) else None
  {
    FilesCollectedRows(s.db, days, day, id);
    ReachableInv(z, s, p);
    assert !(id in s.db.events) ==> !s.db.Live(id);
    if s.db.RowIn(day, id).Some? && id in s.db.events {
      DayRowOfPresentEventIsLive(z, s, p, day, id);
    }
  }

  /** In any interleaving, what a collector is about to delete belongs to events that no longer exist. */
  lemma CollectorDeletesOnlyTheGone(z: Compressor, s: Sys, p: Plain, q: Pid)
    requires z.Lawful() && Reachable(z, s, p) && q in s.procs && s.procs[q].Listed?
    ensures s.procs[q].orphans !! s.db.events.Keys
  {
    ReachableInv(z, s, p);
    assert ProcInv(z, s.db, p.db, s.procs[q]);
    OrphansGone(z, s.db, p.db, s.procs[q]);
  }

  /** A file about to be removed holds, of events still there, at most rows whose bodies are all hot. */
  lemma CollectorRemovesNoOnlyCopy(z: Compressor, s: Sys, p: Plain, q: Pid, id: Id)
    requires z.Lawful() && Reachable(z, s, p) && q in s.procs && s.procs[q].Emptied?
    requires id in s.db.events && s.db.RowIn(s.procs[q].day, id).Some?
    ensures id !in s.db.markers && id in p.db.events && s.db.events[id] == p.db.events[id]
  {
    ReachableInv(z, s, p);
    assert ProcInv(z, s.db, p.db, s.procs[q]);
    EmptiedIsUnmarked(z, s.db, p.db, s.procs[q], id);
    UnmarkedIsWhole(z, s.db, p.db, id);
  }

  lemma EmptiedIsUnmarked(z: Compressor, db: Db, plain: Db, pc: Proc, id: Id)
    requires Shape(db, plain) && pc.Emptied? && ProcInv(z, db, plain, pc)
    requires id in db.events && db.RowIn(pc.day, id).Some?
    ensures id !in db.markers
  {
    assert CarriesOk(z, db, plain, pc, id) && OnDay(db, pc.day, id);
  }

  lemma UnmarkedIsWhole(z: Compressor, db: Db, plain: Db, id: Id)
    requires db.events.Keys == plain.events.Keys && RowsInv(z, db, plain) && id in db.events && id !in db.markers
    ensures db.events[id] == plain.events[id]
  {
    assert RowInvAt(z, db, plain, id);
    assert db.events[id].bodies == plain.events[id].bodies;
  }

  /** An event gone when a collector asks for markers is among its orphans once it has asked for hot bodies. */
  lemma CollectorMissesNothing(z: Compressor, s: Sys, p: Plain, q: Pid, chunk: set<Id>, more: seq<Action>, id: Id)
    requires z.Lawful() && Reachable(z, s, p) && q in s.procs && s.procs[q].Listed? && chunk <= s.procs[q].todo
    requires id in chunk && id !in s.db.events
    requires var asked := Step(z, s, AskMarkers(q, chunk));
             var later := Run(z, asked, more);
             q in later.procs && later.procs[q] == asked.procs[q]
    ensures var later := Run(z, Step(z, s, AskMarkers(q, chunk)), more);
            var judged := Step(z, later, AskHot(q));
            q in judged.procs && judged.procs[q].Listed? && id in judged.procs[q].orphans
  {
    ReachableInv(z, s, p);
    assert ProcInv(z, s.db, p.db, s.procs[q]) && id in CarriedIds(s.procs[q]);
    assert OnDay(s.db, s.procs[q].day, id);
    AskMarkersTaken(z, s, q, chunk);
    var asked := Step(z, s, AskMarkers(q, chunk));
    StaysGone(z, asked, more, id);
    AskHotTaken(z, Run(z, asked, more), q);
  }

  lemma AskMarkersTaken(z: Compressor, s: Sys, q: Pid, chunk: set<Id>)
    requires q in s.procs && s.procs[q].Listed? && chunk <= s.procs[q].todo
    ensures var pc := s.procs[q];
            Step(z, s, AskMarkers(q, chunk))
            == s.(procs := s.procs[q := Asked(pc.day, pc.todo - chunk, pc.orphans, chunk, chunk * s.db.markers.Keys)])
  {
  }

  lemma AskHotTaken(z: Compressor, s: Sys, q: Pid)
    requires q in s.procs && s.procs[q].Asked?
    ensures var pc := s.procs[q];
            Step(z, s, AskHot(q))
            == s.(procs := s.procs[q := Listed(pc.day, pc.todo,
                 pc.orphans + (pc.chunk - pc.marked - HotOf(s.db.events, pc.chunk).Keys))])
  {
  }

  ghost predicate Gone(db: Db, id: Id) {
    id < db.nextId && id !in db.events
  }

  lemma GoneStep(z: Compressor, s: Sys, a: Action, id: Id)
    requires Gone(s.db, id)
    ensures Gone(Step(z, s, a).db, id)
  {
  }

  lemma {:induction false} StaysGone(z: Compressor, s: Sys, more: seq<Action>, id: Id)
    requires Gone(s.db, id)
    ensures Gone(Run(z, s, more).db, id)
    decreases |more|
  {
    if more != [] {
      StaysGone(z, s, more[..|more| - 1], id);
      GoneStep(z, Run(z, s, more[..|more| - 1]), more[|more| - 1], id);
    }
  }

  // ---------- restore ----------

  lemma FilledIsWhole(z: Compressor, e: Event, pe: Event, marker: Option<Marker>, row: Option<DayRow>, got: DayRow)
    requires RowInv(z, e, pe, marker, row)
    requires RowHolds(z, got, pe.bodies) && (marker.Some? ==> marker.value.mask <= got.mask)
    ensures Restorable(z, got) && e.WithBodies(Filled(z, got, e)) == pe
  {
    assert BadCols(z, got) == {};
    forall c: Col
      ensures c in Filled(z, got, e) <==> c in pe.bodies
      ensures c in pe.bodies ==> Filled(z, got, e)[c] == pe.bodies[c]
    {
    }
    assert Filled(z, got, e) == pe.bodies;
  }

  lemma HotRestoredIsWhole(z: Compressor, db: Db, plain: Db, pc: Proc, id: Id)
    requires id in db.events && id in plain.events && RowInvAt(z, db, plain, id)
    requires pc.Restoring? && id in pc.got && CarriesOk(z, db, plain, pc, id)
    ensures Restorable(z, pc.got[id])
    ensures id in HotRestored(z, db, id, pc.got[id]).events
    ensures HotRestored(z, db, id, pc.got[id]).events[id] == plain.events[id]
  {
    FilledIsWhole(z, db.events[id], plain.events[id], db.MarkerOf(id),
                  db.RowIn(DayOf(db.events[id].fixed.startedAt), id), pc.got[id]);
  }

  /** Restore's hot commit undoes archival: every column is hot again and the marker is gone. */
  lemma RestoreBringsBack(z: Compressor, s: Sys, p: Plain, q: Pid, id: Id)
    requires z.Lawful() && Reachable(z, s, p)
    requires q in s.procs && s.procs[q].Restoring? && id in s.procs[q].todo && id in s.procs[q].got && id in s.db.events
    ensures var s' := Step(z, s, RestoreHot(q, id));
            && id in p.db.events && id in s'.db.events
            && s'.db.events[id] == p.db.events[id] && id !in s'.db.markers
  {
    ReachableInv(z, s, p);
    RestoreHotIsWhole(z, s, p, q, id);
  }

  lemma RestoreHotIsWhole(z: Compressor, s: Sys, p: Plain, q: Pid, id: Id)
    requires Inv(z, s, p)
    requires q in s.procs && s.procs[q].Restoring? && id in s.procs[q].todo && id in s.procs[q].got && id in s.db.events
    ensures var s' := Step(z, s, RestoreHot(q, id));
            && id in p.db.events && id in s'.db.events
            && s'.db.events[id] == p.db.events[id] && id !in s'.db.markers
  {
    CarriedInRun(z, s, p, q, id);
    HotRestoredIsWhole(z, s.db, p.db, s.procs[q], id);
    RestoreHotTaken(z, s, q, id);
  }

  lemma RestoreHotTaken(z: Compressor, s: Sys, q: Pid, id: Id)
    requires q in s.procs && s.procs[q].Restoring? && id in s.procs[q].todo && id in s.procs[q].got
    requires Restorable(z, s.procs[q].got[id])
    ensures Step(z, s, RestoreHot(q, id)).db == HotRestored(z, s.db, id, s.procs[q].got[id])
  {
  }

  lemma CarriedInRun(z: Compressor, s: Sys, p: Plain, q: Pid, id: Id)
    requires Inv(z, s, p) && q in s.procs && id in s.db.events
    ensures id in p.db.events && RowInvAt(z, s.db, p.db, id) && CarriesOk(z, s.db, p.db, s.procs[q], id)
  {
    assert ProcInv(z, s.db, p.db, s.procs[q]);
  }

  // ---------- what a row says about its deliveries ----------

  ghost predicate LogShape(p: Plain) {
    && p.db.markers == map[]
    && (forall id :: id in p.log ==> id in p.db.events && p.legacyBelow <= id)
    && (forall id :: id in p.db.events ==> id < p.db.nextId)
    && p.legacyBelow <= p.db.nextId
  }

  ghost predicate LogRow(p: Plain, id: Id) {
    id in p.log && id in p.db.events ==> Summarizes(p.db.events[id], p.log[id])
  }

  ghost predicate LogInv(p: Plain) {
    LogShape(p) && forall id :: LogRow(p, id)
  }

  lemma LogRowDelivered(p: Plain, ev: Event, id: Id)
    requires LogShape(p) && LogRow(p, id)
    ensures LogRow(PlainStep(p, Deliver(ev)), id)
  {
    var rid := ev.fixed.requestId;
    if rid in p.db.byRequest && p.db.byRequest[rid] in p.db.events {
      if id == p.db.byRequest[rid] && id in p.log {
        NextDelivery(p.db.events[id], p.log[id], ev);
      }
    } else if id == p.db.nextId {
      FirstDelivery(ev);
    }
  }

  lemma LogRowRepriced(p: Plain, i: Id, usd: real, source: CostSource, id: Id)
    requires LogRow(p, id)
    ensures LogRow(PlainStep(p, Reprice(i, usd, source)), id)
  {
    if id == i && id in p.log && id in p.db.events {
      SummaryIgnoresCost(p.db.events[id], p.log[id], Repriced(p.db.events[id], usd, source));
    }
  }

  lemma LogRowOther(p: Plain, a: Action, id: Id)
    requires LogShape(p) && LogRow(p, id) && !a.Deliver? && !a.Reprice?
    ensures LogRow(PlainStep(p, a), id)
  {
  }

  lemma LogStep(p: Plain, a: Action)
    requires LogInv(p)
    ensures LogInv(PlainStep(p, a))
  {
    LogShapeStep(p, a);
    forall id
      ensures LogRow(PlainStep(p, a), id)
    {
      match a
      case Deliver(ev) => LogRowDelivered(p, ev, id);
      case Reprice(i, usd, source) => LogRowRepriced(p, i, usd, source, id);
      case _ => LogRowOther(p, a, id);
    }
  }

  lemma LogShapeStep(p: Plain, a: Action)
    requires LogShape(p)
    ensures LogShape(PlainStep(p, a))
  {
  }

  lemma SummaryIgnoresCost(e: Event, ds: seq<Event>, e': Event)
    requires Summarizes(e, ds) && e' == e.(cost := e'.cost)
    ensures Summarizes(e', ds)
  {
    assert forall c: Col :: e'.Empty(c) == e.Empty(c);
  }

  lemma {:induction false} LogTrace(z: Compressor, db: Db, run: seq<Action>, trace: seq<Pair>, n: nat)
    requires NeverArchived(db) && IsTrace(z, db, run, trace) && n <= |run|
    ensures LogInv(trace[n].p)
    decreases n
  {
    if n > 0 {
      LogTrace(z, db, run, trace, n - 1);
      LogStep(trace[n - 1].p, run[n - 1]);
      assert Steps(z, trace[n - 1], run[n - 1], trace[n]);
    }
  }

  /**
   Through any amount of archiving, GC, restore and repricing, a row read back has the tokens, the
   completeness flag and the bodies that the closed forms give for the deliveries it absorbed.
   */
  lemma ReadRowSummarizesItsDeliveries(z: Compressor, s: Sys, p: Plain, id: Id)
    requires z.Lawful() && Reachable(z, s, p) && id in p.log
    ensures id in s.db.events && Summarizes(Hydrated(z, s.db, id), p.log[id])
    ensures CarriesFirst(Hydrated(z, s.db, id).carried, p.log[id]) && NamesSources(s.db.events[id].sourceRefs, p.log[id])
    ensures Hydrated(z, s.db, id).measured.tokens == TokensOf(p.log[id])
  {
    var db :| ReachableFrom(z, db, s, p);
    var run, trace :| ReachedBy(z, db, run, trace, s, p);
    LogTrace(z, db, run, trace, |run|);
    assert LogRow(p, id);
    ReadsRefinePlainStore(z, s, p);
    TokensClosedForm(Hydrated(z, s.db, id), p.log[id]);
  }

  // ---------- one row per request ----------

  /** Each request id leads to the one row that has it, and every row is found by its own. */
  predicate Indexed(db: Db) {
    && (forall rid :: rid in db.byRequest ==>
          db.byRequest[rid] in db.events && db.events[db.byRequest[rid]].fixed.requestId == rid)
    && (forall id :: id in db.events ==> IndexedRow(db, id))
  }

  predicate IndexedRow(db: Db, id: Id)
    requires id in db.events
  {
    var rid := db.events[id].fixed.requestId;
    id < db.nextId && rid in db.byRequest && db.byRequest[rid] == id
  }

  /** A delivery of a request the store knows changes that request's row alone; any other adds one row, under a new id. */
  lemma DeliveryLands(db: Db, ev: Event)
    requires Indexed(db)
    ensures var db', rid := Delivery(db, ev), ev.fixed.requestId;
            && Indexed(db') && rid in db'.byRequest
            && (var id := db'.byRequest[rid];
                && db'.events.Keys == db.events.Keys + {id}
                && (id in db.events <==> rid in db.byRequest) && (id !in db.events ==> id == db.nextId)
                && forall other :: other in db.events && other != id ==> db'.events[other] == db.events[other])
  {
    DeliveryRows(db, ev);
    var rid := ev.fixed.requestId;
    IndexedAfter(db, Delivery(db, ev), rid, if rid in db.byRequest then db.byRequest[rid] else db.nextId);
  }

  /** `db'` is `db` with the row of this request id in place, new or not. */
  predicate RowPlaced(db: Db, db': Db, rid: string, id: Id) {
    && id == (if rid in db.byRequest then db.byRequest[rid] else db.nextId)
    && db'.byRequest == db.byRequest[rid := id] && db'.events.Keys == db.events.Keys + {id}
    && db'.nextId == (if rid in db.byRequest then db.nextId else db.nextId + 1)
    && db'.events[id].fixed.requestId == rid
    && forall other :: other in db.events && other != id ==> db'.events[other] == db.events[other]
  }

  lemma IndexedAfter(db: Db, db': Db, rid: string, id: Id)
    requires Indexed(db) && RowPlaced(db, db', rid, id)
    ensures Indexed(db') && (id in db.events <==> rid in db.byRequest)
  {
    assert rid in db.byRequest ==> id in db.events;
    assert id in db.events ==> IndexedRow(db, id);
    forall i | i in db'.events
      ensures IndexedRow(db', i)
    {
      if i in db.events {
        assert IndexedRow(db, i);
      }
    }
  }

  lemma DeliveryRows(db: Db, ev: Event)
    requires Indexed(db)
    ensures var rid := ev.fixed.requestId;
            RowPlaced(db, Delivery(db, ev), rid, if rid in db.byRequest then db.byRequest[rid] else db.nextId)
  {
    if ev.fixed.requestId in db.byRequest {
      assert db.byRequest[ev.fixed.requestId := db.byRequest[ev.fixed.requestId]] == db.byRequest;
    }
  }

  /** Nothing about the rows but what they hold changed. */
  predicate SameRows(db: Db, db': Db) {
    && db'.byRequest == db.byRequest && db'.nextId == db.nextId && db'.events.Keys == db.events.Keys
    && forall id :: id in db.events ==> db'.events[id].fixed == db.events[id].fixed
  }

  lemma OtherSameRows(z: Compressor, s: Sys, a: Action)
    requires !a.Deliver? && !a.Delete?
    ensures SameRows(s.db, Step(z, s, a).db)
  {
    match a
    case RestoreHot(q, id) => RestoreSameRows(z, s, q, id);
    case MarkAndClear(q) => ClearSameRows(z, s, q);
    case Reprice(id, usd, source) =>
    case SetToolNames(id, names) =>
    case _ => HotUntouched(z, s, a);
  }

  lemma RestoreSameRows(z: Compressor, s: Sys, q: Pid, id: Id)
    ensures SameRows(s.db, Step(z, s, RestoreHot(q, id)).db)
  {
  }

  lemma ClearSameRows(z: Compressor, s: Sys, q: Pid)
    ensures SameRows(s.db, Step(z, s, MarkAndClear(q)).db)
  {
  }

  lemma HotUntouched(z: Compressor, s: Sys, a: Action)
    requires !a.Deliver? && !a.Delete? && !a.Reprice? && !a.SetToolNames? && !a.RestoreHot? && !a.MarkAndClear?
    ensures var db' := Step(z, s, a).db;
            db'.events == s.db.events && db'.byRequest == s.db.byRequest && db'.nextId == s.db.nextId
  {
  }

  lemma IndexedSame(db: Db, db': Db)
    requires Indexed(db) && SameRows(db, db')
    ensures Indexed(db')
  {
    forall id | id in db'.events
      ensures IndexedRow(db', id)
    {
      assert IndexedRow(db, id);
    }
  }

  lemma DeletionIndexed(db: Db, ids: set<Id>)
    requires Indexed(db)
    ensures Indexed(Deleted(db, ids))
  {
    forall id | id in Deleted(db, ids).events
      ensures IndexedRow(Deleted(db, ids), id)
    {
      assert IndexedRow(db, id);
    }
  }

  /** Over every run, whatever processes do, a request id has at most one row and is found under it. */
  lemma {:induction false} OneRowPerRequest(z: Compressor, s: Sys, run: seq<Action>)
    requires Indexed(s.db)
    ensures Indexed(Run(z, s, run).db)
    decreases |run|
  {
    if run != [] {
      var mid, a := Run(z, s, run[..|run| - 1]), run[|run| - 1];
      OneRowPerRequest(z, s, run[..|run| - 1]);
      match a
      case Deliver(ev) => DeliveryLands(mid.db, ev);
      case Delete(ids) => DeletionIndexed(mid.db, ids);
      case _ =>
        OtherSameRows(z, mid, a);
        IndexedSame(mid.db, Step(z, mid, a).db);
    }
  }

  // ---------- billing over whole runs ----------

  predicate Billed(db: Db) {
    forall id :: id in db.events ==> BilledRow(db.events[id])
  }

  predicate DeliveriesBilled(run: seq<Action>) {
    forall i :: 0 <= i < |run| && run[i].Deliver? ==> BilledRow(run[i].ev)
  }

  lemma BilledStep(p: Plain, a: Action)
    requires Billed(p.db) && (a.Deliver? ==> BilledRow(a.ev))
    ensures Billed(PlainStep(p, a).db)
  {
    forall id | id in PlainStep(p, a).db.events
      ensures BilledRow(PlainStep(p, a).db.events[id])
    {
      if a.Deliver? {
        DeliveryBilled(p, a.ev, id);
      } else {
        OtherBilled(p, a, id);
      }
    }
  }

  predicate BilledRow(e: Event) {
    SplitKept(e) && LocalTogether(e)
  }

  lemma DeliveryBilled(p: Plain, ev: Event, id: Id)
    requires Billed(p.db) && BilledRow(ev) && id in PlainStep(p, Deliver(ev)).db.events
    ensures BilledRow(PlainStep(p, Deliver(ev)).db.events[id])
  {
    if id in p.db.events {
      MergeKeepsSplit(p.db.events[id], p.db.Archived(id), ev);
      MergeMakesLocalTogether(p.db.events[id], p.db.Archived(id), ev);
    }
  }

  lemma OtherBilled(p: Plain, a: Action, id: Id)
    requires Billed(p.db) && !a.Deliver? && id in PlainStep(p, a).db.events
    ensures BilledRow(PlainStep(p, a).db.events[id])
  {
    assert id in p.db.events && BilledRow(p.db.events[id]);
  }

  lemma {:induction false} PlainBilled(z: Compressor, db: Db, run: seq<Action>, trace: seq<Pair>, n: nat)
    requires IsTrace(z, db, run, trace) && n <= |run| && Billed(db) && DeliveriesBilled(run)
    ensures Billed(trace[n].p.db)
    decreases n
  {
    if n > 0 {
      PlainBilled(z, db, run, trace, n - 1);
      BilledStep(trace[n - 1].p, run[n - 1]);
      assert Steps(z, trace[n - 1], run[n - 1], trace[n]);
    }
  }

  /** Along every run each figure is in the column its mode reads, and local mode means local account. */
  lemma BillingSplitKept(z: Compressor, db: Db, run: seq<Action>, trace: seq<Pair>, s: Sys, p: Plain, id: Id)
    requires z.Lawful() && ReachedBy(z, db, run, trace, s, p)
    requires Billed(db) && DeliveriesBilled(run) && id in s.db.events
    ensures var e := s.db.events[id];
            && (e.mode == Subscription || e.mode == Local ==> e.cost.usd == None)
            && (e.mode != Subscription && e.mode != Local ==> e.cost.apiEquivalent == None)
            && (e.mode == Local <==> e.account == LocalAccount)
  {
    PlainBilled(z, db, run, trace, |run|);
    TraceKeeps(z, db, run, trace, |run|);
    assert RowInvAt(z, s.db, p.db, id);
  }
}
