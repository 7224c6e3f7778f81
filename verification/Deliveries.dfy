/**
 What a row holds after any sequence of deliveries of its request id, in closed form: which delivery
 supplied the measured columns, which supplied each body, and what capture_complete therefore means.
 */
module Deliveries {
  import opened Prelude
  import opened Events
  import opened Merge

  // ---------- first and last delivery with a property ----------

  function LastWhere(ds: seq<Event>, p: Event -> bool): (r: int)
    ensures -1 <= r < |ds|
    ensures r >= 0 ==> p(ds[r])
    ensures forall k :: r < k < |ds| ==> !p(ds[k])
  {
    if ds == [] then -1
    else if p(ds[|ds| - 1]) then |ds| - 1
    else LastWhere(ds[..|ds| - 1], p)
  }

  function FirstWhere(ds: seq<Event>, p: Event -> bool): (r: int)
    ensures -1 <= r < |ds|
    ensures r >= 0 ==> p(ds[r])
    ensures forall k :: 0 <= k < (if r >= 0 then r else |ds|) ==> !p(ds[k])
  {
    if ds == [] then -1
    else
      var f := FirstWhere(ds[..|ds| - 1], p);
      if f >= 0 then f else if p(ds[|ds| - 1]) then |ds| - 1 else -1
  }

  const OBSERVED: Event -> bool := (d: Event) => d.Observed()
  const COMPLETE: Event -> bool := (d: Event) => d.captureComplete
  const COMPLETE_OBSERVED: Event -> bool := (d: Event) => d.captureComplete && d.Observed()

  function Carries(c: Col): Event -> bool {
    (d: Event) => !d.Empty(c)
  }

  // ---------- the closed forms ----------

  /** The last complete delivery with usage, else the first with usage, else the last complete one. */
  function WinnerIndex(ds: seq<Event>): (r: nat)
    requires ds != []
    ensures r < |ds|
  {
    if LastWhere(ds, COMPLETE_OBSERVED) >= 0 then LastWhere(ds, COMPLETE_OBSERVED)
    else if FirstWhere(ds, OBSERVED) >= 0 then FirstWhere(ds, OBSERVED)
    else if LastWhere(ds, COMPLETE) >= 0 then LastWhere(ds, COMPLETE)
    else 0
  }

  function TokensOf(ds: seq<Event>): Tokens
  {
    if LastWhere(ds, COMPLETE_OBSERVED) >= 0 then ds[LastWhere(ds, COMPLETE_OBSERVED)].measured.tokens
    else if FirstWhere(ds, OBSERVED) >= 0 then ds[FirstWhere(ds, OBSERVED)].measured.tokens
    else ZERO_TOKENS
  }

  /** The delivery whose copy of body `c` the row keeps: the first that carries one. */
  function Owner(ds: seq<Event>, c: Col): int {
    FirstWhere(ds, Carries(c))
  }

  /** Every delivery that supplied a retained request or response body was a complete capture. */
  function OwnersComplete(ds: seq<Event>): bool
    requires ds != []
  {
    var q, p := Owner(ds, Req), Owner(ds, Resp);
    if q < 0 && p < 0 then ds[0].captureComplete
    else (q >= 0 ==> ds[q].captureComplete) && (p >= 0 ==> ds[p].captureComplete)
  }

  /** The string columns a merge only ever backfills. */
  datatype Text = AuthKind | ClientVersion | Project | GitBranch | CliEntrypoint | HttpMethod | Path | ReqHeaders
                | RespHeaders | ReplayOf | ReplayEdits | TranscriptRole

  function TextIn(c: Carried, k: Text): string {
    match k
    case AuthKind => c.authKind
    case ClientVersion => c.clientVersion
    case Project => c.project
    case GitBranch => c.gitBranch
    case CliEntrypoint => c.cliEntrypoint
    case HttpMethod => c.httpMethod
    case Path => c.path
    case ReqHeaders => c.reqHeaders
    case RespHeaders => c.respHeaders
    case ReplayOf => c.replayOf
    case ReplayEdits => c.replayEdits
    case TranscriptRole => c.transcriptRole
  }

  function Says(k: Text): Event -> bool {
    (d: Event) => TextIn(d.carried, k) != ""
  }

  const ANSWERED: Event -> bool := (d: Event) => d.carried.status != 0
  const HASHED: Event -> bool := (d: Event) => d.carried.prefixHash.Some?

  /** The text of the first delivery that has one. */
  function FirstText(ds: seq<Event>, k: Text): string {
    var i := FirstWhere(ds, Says(k));
    if i < 0 then "" else TextIn(ds[i].carried, k)
  }

  function FirstStatus(ds: seq<Event>): int {
    var i := FirstWhere(ds, ANSWERED);
    if i < 0 then 0 else ds[i].carried.status
  }

  function FirstHash(ds: seq<Event>): Option<string> {
    var i := FirstWhere(ds, HASHED);
    if i < 0 then None else ds[i].carried.prefixHash
  }

  /** Each backfilled column is that of the first delivery with something in it; a sidechain once is one for good. */
  ghost predicate CarriesFirst(c: Carried, ds: seq<Event>) {
    && (forall k: Text :: TextIn(c, k) == FirstText(ds, k))
    && c.status == FirstStatus(ds) && c.prefixHash == FirstHash(ds)
    && (c.isSidechain <==> exists i :: 0 <= i < |ds| && ds[i].carried.isSidechain)
  }

  predicate Clean(refs: seq<Source>) {
    && NoSource !in refs
    && forall i, j :: 0 <= i < j < |refs| ==> refs[i] != refs[j]
  }

  predicate Delivers(ds: seq<Event>, s: Source) {
    exists i :: 0 <= i < |ds| && ds[i].fixed.source == s
  }

  /** From the second delivery on: the first one's own references and every delivery's source, each once. */
  ghost predicate NamesSources(refs: seq<Source>, ds: seq<Event>)
    requires ds != []
  {
    if |ds| == 1 then refs == ds[0].sourceRefs
    else Clean(refs) && forall s :: s in refs <==> s != NoSource && (s in ds[0].sourceRefs || Delivers(ds, s))
  }

  /** `e` is what the deliveries `ds` leave behind, billing apart. */
  ghost predicate Summarizes(e: Event, ds: seq<Event>) {
    && ds != []
    && e.fixed == ds[0].fixed
    && e.measured == ds[WinnerIndex(ds)].measured
    && (var t := e.measured.tokens; e.promptTotal == t.input + t.cacheWrite5m + t.cacheWrite1h + t.cacheRead)
    && CarriesFirst(e.carried, ds) && NamesSources(e.sourceRefs, ds)
    && e.captureComplete == OwnersComplete(ds)
    && (forall c: Col :: e.Empty(c) <==> Owner(ds, c) < 0)
    && (forall c: Col :: Owner(ds, c) >= 0 ==> e.bodies[c] == ds[Owner(ds, c)].bodies[c])
    && e.toolNames == (if Owner(ds, Req) < 0 then None else Some(ds[Owner(ds, Req)].toolNames.GetOr("")))
  }

  lemma {:induction false} OwnerOfOne(d: Event, c: Col)
    ensures Owner([d], c) == if d.Empty(c) then -1 else 0
  {
    assert [] + [d] == [d];
    Snoc([], d, Carries(c));
    assert Carries(c)(d) == !d.Empty(c);
  }

  lemma {:induction false} FirstDelivery(d: Event)
    ensures Summarizes(Inserted(d), [d])
  {
    BodiesOfOne(d);
    CompleteOfOne(d);
    MeasuredOfOne(d);
    CarriedOfOne(d);
  }

  lemma {:induction false} BodiesOfOne(d: Event)
    ensures forall c: Col :: d.Empty(c) <==> Owner([d], c) < 0
    ensures forall c: Col :: Owner([d], c) >= 0 ==> d.bodies[c] == [d][Owner([d], c)].bodies[c]
  {
    forall c: Col
      ensures Owner([d], c) == if d.Empty(c) then -1 else 0
    {
      OwnerOfOne(d, c);
    }
  }

  lemma {:induction false} CompleteOfOne(d: Event)
    ensures OwnersComplete([d]) == d.captureComplete
    ensures Inserted(d).toolNames == if Owner([d], Req) < 0 then None else Some([d][Owner([d], Req)].toolNames.GetOr(""))
  {
    OwnerOfOne(d, Req);
    OwnerOfOne(d, Resp);
  }

  lemma {:induction false} MeasuredOfOne(d: Event)
    ensures WinnerIndex([d]) == 0
  {
  }

  lemma {:induction false} CarriedOfOne(d: Event)
    ensures CarriesFirst(d.carried, [d])
  {
    forall k: Text
      ensures TextIn(d.carried, k) == FirstText([d], k)
    {
      TextOfOne(d, k);
    }
    StatusOfOne(d);
    assert [d][0].carried.isSidechain == d.carried.isSidechain;
  }

  lemma {:induction false} TextOfOne(d: Event, k: Text)
    ensures FirstText([d], k) == TextIn(d.carried, k)
  {
    NextText([], d, k);
    assert [] + [d] == [d];
  }

  lemma {:induction false} StatusOfOne(d: Event)
    ensures FirstStatus([d]) == d.carried.status && FirstHash([d]) == d.carried.prefixHash
  {
    NextStatusAndHash([], d);
    assert [] + [d] == [d];
  }

  lemma {:induction false} NextText(ds: seq<Event>, d: Event, k: Text)
    ensures FirstText(ds + [d], k) == if FirstText(ds, k) != "" then FirstText(ds, k) else TextIn(d.carried, k)
  {
    Snoc(ds, d, Says(k));
    var i := FirstWhere(ds, Says(k));
    assert Says(k)(d) <==> TextIn(d.carried, k) != "";
    assert i >= 0 ==> Says(k)(ds[i]);
  }

  lemma {:induction false} NextStatusAndHash(ds: seq<Event>, d: Event)
    ensures FirstStatus(ds + [d]) == if FirstStatus(ds) != 0 then FirstStatus(ds) else d.carried.status
    ensures FirstHash(ds + [d]) == if FirstHash(ds).Some? then FirstHash(ds) else d.carried.prefixHash
  {
    Snoc(ds, d, ANSWERED);
    Snoc(ds, d, HASHED);
    var i, j := FirstWhere(ds, ANSWERED), FirstWhere(ds, HASHED);
    assert i >= 0 ==> ANSWERED(ds[i]);
    assert j >= 0 ==> HASHED(ds[j]);
    assert ANSWERED(d) <==> d.carried.status != 0;
    assert HASHED(d) <==> d.carried.prefixHash.Some?;
  }

  /** One more delivery fills what is still empty and nothing else. */
  lemma {:induction false} NextCarried(c: Carried, ds: seq<Event>, d: Event)
    requires CarriesFirst(c, ds)
    ensures CarriesFirst(MergedCarried(c, d.carried), ds + [d])
  {
    var m := MergedCarried(c, d.carried);
    NextStatusAndHash(ds, d);
    forall k: Text
      ensures TextIn(m, k) == FirstText(ds + [d], k)
    {
      NextText(ds, d, k);
      match k case AuthKind => case ClientVersion => case Project => case GitBranch => case CliEntrypoint =>
              case HttpMethod => case Path => case ReqHeaders => case RespHeaders => case ReplayOf =>
              case ReplayEdits => case TranscriptRole =>
    }
    NextSidechain(ds, d);
  }

  lemma NextSidechain(ds: seq<Event>, d: Event)
    ensures (exists i :: 0 <= i < |ds + [d]| && (ds + [d])[i].carried.isSidechain)
       <==> (exists i :: 0 <= i < |ds| && ds[i].carried.isSidechain) || d.carried.isSidechain
  {
    assert (ds + [d])[|ds|] == d;
    assert forall i :: 0 <= i < |ds| ==> (ds + [d])[i] == ds[i];
  }

  lemma NextDelivers(ds: seq<Event>, d: Event, s: Source)
    ensures Delivers(ds + [d], s) <==> Delivers(ds, s) || d.fixed.source == s
  {
    assert (ds + [d])[|ds|] == d;
    assert forall i :: 0 <= i < |ds| ==> (ds + [d])[i] == ds[i];
  }

  lemma {:induction false} NextSources(refs: seq<Source>, ds: seq<Event>, d: Event)
    requires ds != [] && NamesSources(refs, ds)
    ensures NamesSources(UnionSources(refs, [ds[0].fixed.source, d.fixed.source]), ds + [d])
  {
    var add := [ds[0].fixed.source, d.fixed.source];
    var own := AddSources([], refs);
    AddSourcesKeeps([], refs);
    AddSourcesKeeps(own, add);
    assert (ds + [d])[0] == ds[0];
    assert Delivers(ds, ds[0].fixed.source);
    forall s
      ensures s in AddSources(own, add)
         <==> s != NoSource && (s in ds[0].sourceRefs || Delivers(ds + [d], s))
    {
      NextDelivers(ds, d, s);
      if s != NoSource {
        MembersOfUnion([], refs, s);
        MembersOfUnion(own, add, s);
        if |ds| == 1 {
          assert Delivers(ds, s) <==> ds[0].fixed.source == s;
        }
      }
    }
  }

  lemma {:induction false} Snoc(ds: seq<Event>, d: Event, p: Event -> bool)
    ensures LastWhere(ds + [d], p) == (if p(d) then |ds| else LastWhere(ds, p))
    ensures FirstWhere(ds + [d], p) ==
            (if FirstWhere(ds, p) >= 0 then FirstWhere(ds, p) else if p(d) then |ds| else -1)
  {
    assert (ds + [d])[..|ds|] == ds;
  }

  /** The observed deliveries are exactly what the row's own counts remember. */
  lemma {:induction false} ObservedSoFar(e: Event, ds: seq<Event>)
    requires ds != [] && e.measured == ds[WinnerIndex(ds)].measured
    ensures e.Observed() <==> FirstWhere(ds, OBSERVED) >= 0
    ensures e.Observed() <==> OBSERVED(ds[WinnerIndex(ds)])
    ensures LastWhere(ds, COMPLETE_OBSERVED) >= 0 ==> e.Observed()
  {
    var w := WinnerIndex(ds);
    var co := LastWhere(ds, COMPLETE_OBSERVED);
    assert e.Observed() <==> OBSERVED(ds[w]);
    if co >= 0 {
      assert COMPLETE_OBSERVED(ds[co]) && OBSERVED(ds[co]);
    }
  }

  lemma {:induction false} NextMeasured(e: Event, ds: seq<Event>, d: Event)
    requires ds != [] && e.measured == ds[WinnerIndex(ds)].measured
    ensures SideOf(Winner(e, d), e, d).measured == (ds + [d])[WinnerIndex(ds + [d])].measured
  {
    ObservedSoFar(e, ds);
    Snoc(ds, d, OBSERVED);
    Snoc(ds, d, COMPLETE);
    Snoc(ds, d, COMPLETE_OBSERVED);
    assert OBSERVED(d) == d.Observed() && COMPLETE(d) == d.captureComplete;
    assert COMPLETE_OBSERVED(d) == (d.captureComplete && d.Observed());
  }

  predicate NoBytes(b: map<Col, Bytes>, c: Col) {
    c !in b || |b[c]| == 0
  }

  lemma {:induction false} NextOwner(ds: seq<Event>, d: Event, c: Col)
    ensures Owner(ds + [d], c) == (if Owner(ds, c) >= 0 then Owner(ds, c) else if d.Empty(c) then -1 else |ds|)
  {
    Snoc(ds, d, Carries(c));
    assert Carries(c)(d) == !d.Empty(c);
  }

  lemma NextCell(e: Event, d: Event, c: Col)
    ensures var b := MergedBodies(e, {}, d);
            && (!e.Empty(c) ==> c in b && b[c] == e.bodies[c])
            && (e.Empty(c) ==> (c in b <==> c in d.bodies) && (c in b ==> b[c] == d.bodies[c]))
  {
  }

  lemma {:induction false} NextBody(e: Event, ds: seq<Event>, d: Event, c: Col)
    requires e.Empty(c) <==> Owner(ds, c) < 0
    requires Owner(ds, c) >= 0 ==> e.bodies[c] == ds[Owner(ds, c)].bodies[c]
    ensures var b := MergedBodies(e, {}, d);
            var o := Owner(ds + [d], c);
            && o == (if !e.Empty(c) then Owner(ds, c) else if d.Empty(c) then -1 else |ds|)
            && (NoBytes(b, c) <==> o < 0)
            && (o >= 0 ==> b[c] == (ds + [d])[o].bodies[c])
  {
    NextOwner(ds, d, c);
    NextCell(e, d, c);
  }

  /** One more delivery keeps the closed forms, whatever flag the merged row carries by then. */
  lemma {:induction false} NextDelivery(e: Event, ds: seq<Event>, d: Event)
    requires Summarizes(e, ds)
    ensures Summarizes(Merged(e, {}, d), ds + [d])
  {
    NextMeasured(e, ds, d);
    NextBodies(e, ds, d);
    NextComplete(e, ds, d);
    NextToolNames(e, ds, d);
    NextCarried(e.carried, ds, d);
    NextSources(e.sourceRefs, ds, d);
    assert (ds + [d])[0] == ds[0];
  }

  lemma {:induction false} NextBodies(e: Event, ds: seq<Event>, d: Event)
    requires forall c: Col :: e.Empty(c) <==> Owner(ds, c) < 0
    requires forall c: Col :: Owner(ds, c) >= 0 ==> e.bodies[c] == ds[Owner(ds, c)].bodies[c]
    ensures var b, next := MergedBodies(e, {}, d), ds + [d];
            && (forall c: Col :: NoBytes(b, c) <==> Owner(next, c) < 0)
            && (forall c: Col :: Owner(next, c) >= 0 ==> b[c] == next[Owner(next, c)].bodies[c])
  {
    forall c: Col
      ensures NoBytes(MergedBodies(e, {}, d), c) <==> Owner(ds + [d], c) < 0
      ensures Owner(ds + [d], c) >= 0 ==> MergedBodies(e, {}, d)[c] == (ds + [d])[Owner(ds + [d], c)].bodies[c]
    {
      NextBody(e, ds, d, c);
    }
  }

  lemma {:induction false} NextComplete(e: Event, ds: seq<Event>, d: Event)
    requires ds != [] && e.captureComplete == OwnersComplete(ds)
    requires forall c: Col :: e.Empty(c) <==> Owner(ds, c) < 0
    requires forall c: Col :: Owner(ds, c) >= 0 ==> e.bodies[c] == ds[Owner(ds, c)].bodies[c]
    ensures MergedComplete(e, {}, d) == OwnersComplete(ds + [d])
  {
    NextBody(e, ds, d, Req);
    NextBody(e, ds, d, Resp);
    assert (ds + [d])[0] == ds[0];
  }

  lemma {:induction false} NextToolNames(e: Event, ds: seq<Event>, d: Event)
    requires e.Empty(Req) <==> Owner(ds, Req) < 0
    requires Owner(ds, Req) >= 0 ==> e.bodies[Req] == ds[Owner(ds, Req)].bodies[Req]
    requires e.toolNames == (if Owner(ds, Req) < 0 then None else Some(ds[Owner(ds, Req)].toolNames.GetOr("")))
    ensures var o := Owner(ds + [d], Req);
            Merged(e, {}, d).toolNames == (if o < 0 then None else Some((ds + [d])[o].toolNames.GetOr("")))
  {
    NextBody(e, ds, d, Req);
  }

  // ---------- runs of deliveries ----------

  /** The row after the deliveries `ds`, in order. */
  function Delivered(ds: seq<Event>): Event
    requires ds != []
  {
    var last := ds[|ds| - 1];
    if |ds| == 1 then Inserted(last) else Merged(Delivered(ds[..|ds| - 1]), {}, last)
  }

  lemma {:induction false} DeliveredSummarizes(ds: seq<Event>)
    requires ds != []
    ensures Summarizes(Delivered(ds), ds)
  {
    var init, last := ds[..|ds| - 1], ds[|ds| - 1];
    assert ds == init + [last];
    if |ds| == 1 {
      FirstDelivery(last);
    } else {
      DeliveredSummarizes(init);
      NextDelivery(Delivered(init), init, last);
    }
  }

  /**
   The six token counts are those of the last complete delivery with observed usage, else of the first
   delivery with observed usage, else all zero.
   */
  lemma {:induction false} TokensClosedForm(e: Event, ds: seq<Event>)
    requires Summarizes(e, ds)
    ensures e.measured.tokens == TokensOf(ds)
  {
    TokensOfMeasured(e, ds);
  }

  lemma {:induction false} TokensOfMeasured(e: Event, ds: seq<Event>)
    requires ds != [] && e.measured == ds[WinnerIndex(ds)].measured
    ensures e.measured.tokens == TokensOf(ds)
  {
    ObservedSoFar(e, ds);
  }

  /** Usage is on the row exactly when some delivery measured it. */
  lemma {:induction false} UsageNeverForgotten(e: Event, ds: seq<Event>)
    requires Summarizes(e, ds)
    ensures e.Observed() <==> exists d :: d in ds && d.Observed()
  {
    ObservedSoFar(e, ds);
    SomeObserved(ds);
  }

  lemma {:induction false} SomeObserved(ds: seq<Event>)
    ensures FirstWhere(ds, OBSERVED) >= 0 <==> exists d :: d in ds && d.Observed()
  {
    var f := FirstWhere(ds, OBSERVED);
    if f >= 0 {
      assert ds[f] in ds && OBSERVED(ds[f]);
    } else {
      forall d | d in ds
        ensures !d.Observed()
      {
        var k :| 0 <= k < |ds| && ds[k] == d;
        assert !OBSERVED(ds[k]);
      }
    }
  }

  /** A complete row's retained bodies all come from complete captures: no flag is laundered. */
  lemma {:induction false} CompletenessNeverLaundered(e: Event, ds: seq<Event>, c: Col)
    requires Summarizes(e, ds)
    requires e.captureComplete && c != Transcript && !e.Empty(c)
    ensures 0 <= Owner(ds, c) && ds[Owner(ds, c)].captureComplete
    ensures e.bodies[c] == ds[Owner(ds, c)].bodies[c]
  {
  }

  /** A body the row keeps is one delivery's, byte for byte. */
  lemma {:induction false} BodyOfOwner(e: Event, ds: seq<Event>, c: Col)
    requires Summarizes(e, ds)
    ensures !e.Empty(c) <==> Owner(ds, c) >= 0
    ensures Owner(ds, c) >= 0 ==> c in e.bodies && e.bodies[c] == ds[Owner(ds, c)].bodies[c]
  {
  }

  /** After any deliveries at all, the counts in closed form, and usage exactly when some delivery measured it. */
  lemma {:induction false} DeliveredCounts(ds: seq<Event>)
    requires ds != []
    ensures Delivered(ds).measured.tokens == TokensOf(ds)
    ensures Delivered(ds).Observed() <==> exists d :: d in ds && d.Observed()
  {
    var e := Delivered(ds);
    DeliveredSummarizes(ds);
    CountsOf(e, ds);
  }

  lemma {:induction false} CountsOf(e: Event, ds: seq<Event>)
    requires Summarizes(e, ds)
    ensures e.measured.tokens == TokensOf(ds)
    ensures e.Observed() <==> exists d :: d in ds && d.Observed()
  {
    TokensClosedForm(e, ds);
    UsageNeverForgotten(e, ds);
  }

  /**
   After any deliveries at all, a kept body is one delivery's, byte for byte, and that delivery was complete
   itself when the row says complete.
   */
  lemma {:induction false} DeliveredBody(ds: seq<Event>, c: Col)
    requires ds != []
    ensures Delivered(ds).captureComplete == OwnersComplete(ds)
    ensures !Delivered(ds).Empty(c) <==> Owner(ds, c) >= 0
    ensures Owner(ds, c) >= 0 ==> c in Delivered(ds).bodies && Delivered(ds).bodies[c] == ds[Owner(ds, c)].bodies[c]
    ensures Delivered(ds).captureComplete && c != Transcript && Owner(ds, c) >= 0 ==> ds[Owner(ds, c)].captureComplete
  {
    DeliveredSummarizes(ds);
    BodyOfOwner(Delivered(ds), ds, c);
  }

  /** After any deliveries at all, each backfilled column is that of the first delivery with something in it. */
  lemma {:induction false} DeliveredColumns(ds: seq<Event>)
    requires ds != []
    ensures CarriesFirst(Delivered(ds).carried, ds) && NamesSources(Delivered(ds).sourceRefs, ds)
  {
    DeliveredSummarizes(ds);
  }

  // ---------- re-delivery ----------

  lemma {:induction false} AddSourcesKeeps(out: seq<Source>, add: seq<Source>)
    requires Clean(out)
    ensures Clean(AddSources(out, add))
    ensures out <= AddSources(out, add)
    ensures forall s :: s in add && s != NoSource ==> s in AddSources(out, add)
    decreases |add|
  {
    if add != [] {
      AddSourcesKeeps(AddSource(out, add[0]), add[1..]);
      assert forall s :: s in add ==> s == add[0] || s in add[1..];
      var r := AddSources(out, add);
      var o := AddSource(out, add[0]);
      if add[0] != NoSource {
        var k :| 0 <= k < |o| && o[k] == add[0];
        assert r[k] == add[0];
      }
    }
  }

  lemma {:induction false} AddSourcesAbsorbed(out: seq<Source>, add: seq<Source>)
    requires forall s :: s in add && s != NoSource ==> s in out
    ensures AddSources(out, add) == out
    decreases |add|
  {
    if add != [] {
      assert add[0] in add;
      assert forall s :: s in add[1..] ==> s in add;
      AddSourcesAbsorbed(out, add[1..]);
    }
  }

  lemma {:induction false} AddSourcesFromPrefix(refs: seq<Source>, i: nat)
    requires Clean(refs) && i <= |refs|
    ensures AddSources(refs[..i], refs[i..]) == refs
    decreases |refs| - i
  {
    if i < |refs| {
      assert refs[i] in refs && refs[i] !in refs[..i];
      assert AddSource(refs[..i], refs[i]) == refs[..i + 1];
      assert refs[i..][0] == refs[i] && refs[i..][1..] == refs[i + 1..];
      AddSourcesFromPrefix(refs, i + 1);
    } else {
      assert refs[..i] == refs;
    }
  }

  lemma {:induction false} UnionAbsorbs(existing: seq<Source>, add: seq<Source>)
    ensures var once := UnionSources(existing, add);
            UnionSources(once, add) == once
  {
    AddSourcesKeeps([], existing);
    AddSourcesKeeps(AddSources([], existing), add);
    var once := UnionSources(existing, add);
    AddSourcesFromPrefix(once, 0);
    assert once[..0] == [] && once[0..] == once;
    AddSourcesAbsorbed(once, add);
  }

  /** The proxy stays involved once either side's own collector is the proxy. */
  lemma UnionInvolves(existing: Event, incoming: Event)
    ensures var refs := UnionSources(existing.sourceRefs, [existing.fixed.source, incoming.fixed.source]);
            Proxy in refs <==> ProxyInvolved(existing) || incoming.fixed.source == Proxy
  {
    MembersOfUnion([], existing.sourceRefs, Proxy);
    MembersOfUnion(AddSources([], existing.sourceRefs), [existing.fixed.source, incoming.fixed.source], Proxy);
  }

  lemma {:induction false} MembersOfUnion(out: seq<Source>, add: seq<Source>, s: Source)
    requires s != NoSource
    ensures s in AddSources(out, add) <==> s in out || s in add
    decreases |add|
  {
    if add != [] {
      MembersOfUnion(AddSource(out, add[0]), add[1..], s);
      assert s in add <==> s == add[0] || s in add[1..];
    }
  }

  lemma CarriedAbsorbs(a: Carried, b: Carried)
    ensures MergedCarried(MergedCarried(a, b), b) == MergedCarried(a, b)
  {
  }

  /** The tool names of the side whose request body is kept. */
  function KeptNames(existing: Event, archived: Mask, incoming: Event): Option<string> {
    if Present(existing, archived, Req) then existing.toolNames else incoming.toolNames
  }

  function NamesKept(e: Event, archived: Mask, names: Option<string>): Option<string> {
    if Present(e, archived, Req) then Some(names.GetOr("")) else None
  }

  lemma {:induction false} AbsorbedAgain(existing: Event, archived: Mask, incoming: Event, once: Event)
    requires once.fixed == existing.fixed
    requires once.sourceRefs == UnionSources(existing.sourceRefs, [existing.fixed.source, incoming.fixed.source])
    requires once.measured == SideOf(Winner(existing, incoming), existing, incoming).measured
    requires once.promptTotal == once.measured.tokens.PromptTotal()
    requires once.mode == MergedMode(existing, incoming) && once.cost == MergedCost(existing, incoming)
    requires once.account == MergedAccount(existing, incoming)
    requires once.carried == MergedCarried(existing.carried, incoming.carried)
    requires once.bodies == MergedBodies(existing, archived, incoming)
    requires once.captureComplete == MergedComplete(existing, archived, incoming)
    requires once.toolNames == NamesKept(once, archived, KeptNames(existing, archived, incoming))
    ensures Merged(once, archived, incoming) == once && !Mismatch(once, incoming)
  {
    AbsorbedCall(existing, incoming, once);
    RedeliveryBodies(existing, archived, incoming, once);
    RedeliveryToolNames(existing, archived, incoming, once);
    FixedPoint(once, archived, incoming);
  }

  /** Everything but the bodies. */
  lemma {:induction false} AbsorbedCall(existing: Event, incoming: Event, once: Event)
    requires once.fixed == existing.fixed
    requires once.sourceRefs == UnionSources(existing.sourceRefs, [existing.fixed.source, incoming.fixed.source])
    requires once.measured == SideOf(Winner(existing, incoming), existing, incoming).measured
    requires once.mode == MergedMode(existing, incoming) && once.cost == MergedCost(existing, incoming)
    requires once.account == MergedAccount(existing, incoming)
    requires once.carried == MergedCarried(existing.carried, incoming.carried)
    ensures UnionSources(once.sourceRefs, [once.fixed.source, incoming.fixed.source]) == once.sourceRefs
    ensures SideOf(Winner(once, incoming), once, incoming).measured == once.measured && !Mismatch(once, incoming)
    ensures MergedMode(once, incoming) == once.mode && MergedCost(once, incoming) == once.cost
    ensures MergedAccount(once, incoming) == once.account
    ensures MergedCarried(once.carried, incoming.carried) == once.carried
  {
    UnionAbsorbs(existing.sourceRefs, [existing.fixed.source, incoming.fixed.source]);
    UnionInvolves(existing, incoming);
    CarriedAbsorbs(existing.carried, incoming.carried);
    RedeliveryMeasured(existing, incoming, once);
    RedeliveryBilled(existing, incoming, once);
  }

  /**
   Merging the same delivery twice changes no column after the first time, and never reports a second
   token mismatch, for every pair of rows and every archived mask.
   */
  lemma {:induction false} RedeliveryAbsorbed(existing: Event, archived: Mask, incoming: Event)
    ensures var once := Merged(existing, archived, incoming);
            Merged(once, archived, incoming) == once && !Mismatch(once, incoming)
  {
    AbsorbedAgain(existing, archived, incoming, Merged(existing, archived, incoming));
  }

  /** A row each of whose column groups a merge would write back unchanged is a fixed point of it. */
  lemma FixedPoint(e: Event, archived: Mask, d: Event)
    requires UnionSources(e.sourceRefs, [e.fixed.source, d.fixed.source]) == e.sourceRefs
    requires SideOf(Winner(e, d), e, d).measured == e.measured && e.promptTotal == e.measured.tokens.PromptTotal()
    requires MergedMode(e, d) == e.mode && MergedCost(e, d) == e.cost && MergedAccount(e, d) == e.account
    requires MergedCarried(e.carried, d.carried) == e.carried
    requires MergedBodies(e, archived, d) == e.bodies && MergedComplete(e, archived, d) == e.captureComplete
    requires NamesKept(e, archived, KeptNames(e, archived, d)) == e.toolNames
    ensures Merged(e, archived, d) == e
  {
  }

  lemma RedeliveryMeasured(existing: Event, incoming: Event, once: Event)
    requires once.measured == SideOf(Winner(existing, incoming), existing, incoming).measured
    ensures SideOf(Winner(once, incoming), once, incoming).measured == once.measured
    ensures !Mismatch(once, incoming)
    ensures once.Observed() == (existing.Observed() || incoming.Observed())
  {
  }

  lemma RedeliveryBilled(existing: Event, incoming: Event, once: Event)
    requires once.mode == MergedMode(existing, incoming) && once.cost == MergedCost(existing, incoming)
    requires once.account == MergedAccount(existing, incoming)
    requires once.Observed() == (existing.Observed() || incoming.Observed())
    requires ProxyInvolved(once) <==> ProxyInvolved(existing) || incoming.fixed.source == Proxy
    ensures MergedMode(once, incoming) == once.mode && MergedCost(once, incoming) == once.cost
    ensures MergedAccount(once, incoming) == once.account
  {
    if Winner(existing, incoming) == Existing {
      assert Winner(once, incoming) == Existing;
    } else {
      assert Winner(once, incoming) == Incoming || !incoming.captureComplete;
    }
  }

  lemma RedeliveryBodies(existing: Event, archived: Mask, incoming: Event, once: Event)
    requires once.bodies == MergedBodies(existing, archived, incoming)
    requires once.captureComplete == MergedComplete(existing, archived, incoming)
    ensures MergedBodies(once, archived, incoming) == once.bodies
    ensures MergedComplete(once, archived, incoming) == once.captureComplete
  {
    forall c: Col
      ensures c in MergedBodies(once, archived, incoming) <==> c in once.bodies
      ensures c in once.bodies ==> MergedBodies(once, archived, incoming)[c] == once.bodies[c]
      ensures Present(once, archived, c) <==> Present(existing, archived, c) || !incoming.Empty(c)
    {
    }
  }

  lemma RedeliveryToolNames(existing: Event, archived: Mask, incoming: Event, once: Event)
    requires once.bodies == MergedBodies(existing, archived, incoming)
    requires once.toolNames == NamesKept(once, archived, KeptNames(existing, archived, incoming))
    ensures NamesKept(once, archived, KeptNames(once, archived, incoming)) == once.toolNames
  {
    assert Present(once, archived, Req) <==> Present(existing, archived, Req) || !incoming.Empty(Req);
  }
}
