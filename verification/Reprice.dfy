/** Recomputing stored costs (RepriceCosts and reconcileSessionTx in internal/store/store.go). */
module Reprice {
  import opened Prelude
  import opened Events
  import opened BlobCodec
  import opened Billing
  import opened ArchiveDb
  import opened Pricing
  import P = Protocol

  type Calls = map<Id, Event>

  /** The PriceComputer seam. */
  datatype Pricer = Pricer(compute: (string, Usage, string, string, int) -> Price)
  {
    /** Pricing a row again under the label its price just gave it changes neither figure nor label. */
    ghost predicate Settled() {
      forall model: string, u: Usage, speed: string, tier: string, at: int ::
        SettledAt(model, u, speed, tier, at)
    }

    ghost predicate SettledAt(model: string, u: Usage, speed: string, tier: string, at: int) {
      match compute(model, u, speed, tier, at)
      case NoPrice => true
      case Price(usd, source) =>
        compute(model, u.(ttlUnknown := source == CacheTtlUnknown), speed, tier, at) == Price(usd, source)
    }
  }

  /** The price table behind the seam. */
  function TablePricer(table: Table, round: real -> real): Pricer {
    Pricer((model: string, u: Usage, speed: string, tier: string, at: int) =>
      Priced(table, round, model, u, speed, tier, at))
  }

  lemma TableSettled(table: Table, round: real -> real)
    ensures TablePricer(table, round).Settled()
  {
    var p := TablePricer(table, round);
    forall model: string, u: Usage, speed: string, tier: string, at: int
      ensures p.SettledAt(model, u, speed, tier, at)
    {
      assert p.compute(model, u, speed, tier, at) == Priced(table, round, model, u, speed, tier, at);
    }
  }

  // ---------- one row ----------

  const ZERO_TIME: int := -62135596800000000000

  /** A stored 0 reads back as the zero time. */
  function TimeFromNano(ns: int): int {
    if ns == 0 then ZERO_TIME else ns
  }

  /** The labels whose inputs the row's own columns still hold. */
  predicate InScope(source: CostSource) {
    source != Unpriced && !source.ApproximateOther?
  }

  datatype Verdict = Skip | Same | Move(usd: real, source: CostSource)

  /** The price of a row from its own columns; a local row is priced as the local baseline. */
  function PriceOf(p: Pricer, e: Event): Price {
    var model := if e.mode == Local then LOCAL_PRICE_MODEL else e.measured.modelResolved;
    var at := if e.mode == Local then LOCAL_PRICE_AT else TimeFromNano(e.fixed.startedAt);
    p.compute(model, Usage(e.measured.tokens.(thinking := 0), e.cost.source == CacheTtlUnknown),
              e.measured.speed, e.measured.serviceTier, at)
  }

  /** The figure in the column the row's mode reads. */
  function RoutedFigure(e: Event): Option<real> {
    if IsProjection(e.mode) then e.cost.apiEquivalent else e.cost.usd
  }

  function VerdictOn(p: Pricer, e: Event, model: string): Verdict {
    if (model == "" || e.cost.source != Unpriced) && !InScope(e.cost.source) then Skip
    else match PriceOf(p, e)
      case NoPrice => Skip
      case Price(usd, source) =>
        if RoutedFigure(e) == Some(usd) && source == e.cost.source then Same else Move(usd, source)
  }

  predicate Reads(e: Event, model: string) {
    model == "" || e.measured.modelResolved == model
  }

  function RowAfter(p: Pricer, e: Event, model: string): Event {
    match VerdictOn(p, e, model)
    case Move(usd, source) => if Reads(e, model) then Repriced(e, usd, source) else e
    case _ => e
  }

  /** A moved row agrees with its price from then on, and no other column of it changed. */
  lemma RowSettles(p: Pricer, e: Event, model: string)
    requires p.Settled() && Reads(e, model)
    ensures var e' := RowAfter(p, e, model);
            && e' == e.(cost := e'.cost)
            && !VerdictOn(p, e', model).Move?
            && (VerdictOn(p, e, model).Move? ==> SplitKept(e'))
  {
    match VerdictOn(p, e, model)
    case Move(usd, source) =>
      var name := if e.mode == Local then LOCAL_PRICE_MODEL else e.measured.modelResolved;
      var at := if e.mode == Local then LOCAL_PRICE_AT else TimeFromNano(e.fixed.startedAt);
      assert p.SettledAt(name, Usage(e.measured.tokens.(thinking := 0), e.cost.source == CacheTtlUnknown),
                         e.measured.speed, e.measured.serviceTier, at);
      assert PriceOf(p, Repriced(e, usd, source)) == Price(usd, source);
    case _ =>
  }

  // ---------- the whole table ----------

  datatype Counts = Counts(moved: nat, agreed: nat, skipped: nat)

  function CountsOf(p: Pricer, calls: Calls, ids: seq<Id>, model: string): Counts
    requires forall id :: id in ids ==> id in calls
  {
    if ids == [] then Counts(0, 0, 0)
    else
      var before, e := CountsOf(p, calls, ids[..|ids| - 1], model), calls[ids[|ids| - 1]];
      if !Reads(e, model) then before
      else match VerdictOn(p, e, model)
        case Skip => before.(skipped := before.skipped + 1)
        case Same => before.(agreed := before.agreed + 1)
        case Move(_, _) => before.(moved := before.moved + 1)
  }

  function RowsRead(calls: Calls, ids: seq<Id>, model: string): nat
    requires forall id :: id in ids ==> id in calls
  {
    if ids == [] then 0
    else RowsRead(calls, ids[..|ids| - 1], model) + if Reads(calls[ids[|ids| - 1]], model) then 1 else 0
  }

  /** The table with the rows of `ids` repriced. */
  function After(p: Pricer, calls: Calls, ids: seq<Id>, model: string): Calls {
    map id | id in calls :: if id in ids then RowAfter(p, calls[id], model) else calls[id]
  }

  /** The three buckets account for every row read. */
  lemma {:induction false} BucketsPartition(p: Pricer, calls: Calls, ids: seq<Id>, model: string)
    requires forall id :: id in ids ==> id in calls
    ensures var c := CountsOf(p, calls, ids, model);
            c.moved + c.agreed + c.skipped == RowsRead(calls, ids, model)
    decreases |ids|
  {
    if ids != [] {
      BucketsPartition(p, calls, ids[..|ids| - 1], model);
    }
  }

  /** Right after a pass, a second one moves nothing and changes nothing. */
  lemma SecondPassMovesNothing(p: Pricer, calls: Calls, ids: seq<Id>, model: string)
    requires p.Settled() && forall id :: id in ids ==> id in calls
    ensures var once := After(p, calls, ids, model);
            CountsOf(p, once, ids, model).moved == 0 && After(p, once, ids, model) == once
  {
    var once := After(p, calls, ids, model);
    forall id | id in ids
      ensures !(Reads(once[id], model) && VerdictOn(p, once[id], model).Move?)
    {
      if Reads(calls[id], model) {
        RowSettles(p, calls[id], model);
      }
    }
    NoneMove(p, once, ids, model);
  }

  lemma {:induction false} NoneMove(p: Pricer, calls: Calls, ids: seq<Id>, model: string)
    requires forall id :: id in ids ==> id in calls && !(Reads(calls[id], model) && VerdictOn(p, calls[id], model).Move?)
    ensures CountsOf(p, calls, ids, model).moved == 0
    decreases |ids|
  {
    if ids != [] {
      assert forall id :: id in ids[..|ids| - 1] ==> id in ids;
      NoneMove(p, calls, ids[..|ids| - 1], model);
    }
  }

  /** The billing split survives a pass, and only cost columns of rows in scope change. */
  lemma PassKeepsSplit(p: Pricer, calls: Calls, ids: seq<Id>, model: string, id: Id)
    requires id in calls
    ensures var e, e' := calls[id], After(p, calls, ids, model)[id];
            && e' == e.(cost := e'.cost)
            && (SplitKept(e) ==> SplitKept(e'))
            && (e'.cost != e.cost ==> id in ids && Reads(e, model) && SplitKept(e')
                                      && (InScope(e.cost.source) || (model != "" && e.cost.source == Unpriced)))
  {
  }

  /**
   Exactly which rows a pass changes and to what, every column by name: a row of the model asked for, with a label that
   says its inputs are all here, or, under a model, none yet; when there is a price; when figure or label differ from it.
   */
  lemma MovedExactly(p: Pricer, calls: Calls, ids: seq<Id>, model: string, id: Id)
    requires id in calls
    ensures var e := calls[id];
            var t := e.measured.tokens;
            var projected := e.mode == Subscription || e.mode == Local;
            var price := p.compute(
              if e.mode == Local then "deepseek-flash" else e.measured.modelResolved,
              Usage(Tokens(t.input, t.output, t.cacheWrite5m, t.cacheWrite1h, t.cacheRead, 0), e.cost.source == CacheTtlUnknown),
              e.measured.speed, e.measured.serviceTier,
              if e.mode == Local then LOCAL_PRICE_AT else if e.fixed.startedAt == 0 then ZERO_TIME else e.fixed.startedAt);
            var asked := id in ids && (model == "" || e.measured.modelResolved == model);
            var open := if e.cost.source == Unpriced then model != "" else !e.cost.source.ApproximateOther?;
            var stored := if projected then e.cost.apiEquivalent else e.cost.usd;
            After(p, calls, ids, model)[id] ==
              if asked && open && price.Price? && (stored != Some(price.usd) || e.cost.source != price.source)
              then e.(cost := if projected then Cost(None, Some(price.usd), price.source)
                              else Cost(Some(price.usd), None, price.source))
              else e
  {
    var t := calls[id].measured.tokens;
    assert t.(thinking := 0) == Tokens(t.input, t.output, t.cacheWrite5m, t.cacheWrite1h, t.cacheRead, 0);
  }

  function Changed(p: Pricer, calls: Calls, ids: seq<Id>, model: string): set<Id>
    requires forall id :: id in ids ==> id in calls
  {
    set id | id in ids && RowAfter(p, calls[id], model) != calls[id]
  }

  /** The moved count, of a dry run too, is the number of rows a pass changes. */
  lemma {:induction false} MovedCounted(p: Pricer, calls: Calls, ids: seq<Id>, model: string)
    requires (forall id :: id in ids ==> id in calls) && forall j, k :: 0 <= j < k < |ids| ==> ids[j] != ids[k]
    ensures CountsOf(p, calls, ids, model).moved == |set id | id in calls && After(p, calls, ids, model)[id] != calls[id]|
  {
    MovedIsChanged(p, calls, ids, model);
    assert Changed(p, calls, ids, model) == set id | id in calls && After(p, calls, ids, model)[id] != calls[id];
  }

  lemma {:induction false} MovedIsChanged(p: Pricer, calls: Calls, ids: seq<Id>, model: string)
    requires (forall id :: id in ids ==> id in calls) && forall j, k :: 0 <= j < k < |ids| ==> ids[j] != ids[k]
    ensures CountsOf(p, calls, ids, model).moved == |Changed(p, calls, ids, model)|
    decreases |ids|
  {
    if ids != [] {
      var n := |ids| - 1;
      MovedIsChanged(p, calls, ids[..n], model);
      assert ids[..n + 1] == ids;
      CountsSnoc(p, calls, ids, n, model);
      ChangedRow(p, calls[ids[n]], model);
      ChangedSnoc(p, calls, ids, ids[..n], ids[n], model);
    }
  }

  lemma ChangedSnoc(p: Pricer, calls: Calls, ids: seq<Id>, init: seq<Id>, last: Id, model: string)
    requires (forall id :: id in ids ==> id in calls) && ids == init + [last] && last !in init
    ensures |Changed(p, calls, ids, model)|
         == |Changed(p, calls, init, model)| + if RowAfter(p, calls[last], model) != calls[last] then 1 else 0
  {
    assert Changed(p, calls, ids, model)
        == Changed(p, calls, init, model) + if RowAfter(p, calls[last], model) != calls[last] then {last} else {};
  }

  lemma ChangedRow(p: Pricer, e: Event, model: string)
    ensures RowAfter(p, e, model) != e <==> Reads(e, model) && VerdictOn(p, e, model).Move?
  {
  }

  // ---------- sessions ----------

  datatype Totals = Totals(requests: nat, tokens: Tokens, promptTotal: int, priced: nat, unpriced: nat,
                           models: set<string>, warnings: nat, cost: Option<real>, apiEquivalent: Option<real>)

  const NO_TOTALS := Totals(0, ZERO_TOKENS, 0, 0, 0, {}, 0, None, None)

  datatype Session = Session(prefixHash: string, firstSeen: int, lastSeen: int, totals: Totals)

  function Plus(a: Tokens, b: Tokens): Tokens {
    Tokens(a.input + b.input, a.output + b.output, a.cacheWrite5m + b.cacheWrite5m,
           a.cacheWrite1h + b.cacheWrite1h, a.cacheRead + b.cacheRead, a.thinking + b.thinking)
  }

  /** SUM skips NULLs and is NULL over nothing else. */
  function SumInto(total: Option<real>, figure: Option<real>): Option<real> {
    match figure
    case None => total
    case Some(f) => Some(total.GetOr(0.0) + f)
  }

  function AddRow(t: Totals, e: Event, warnings: nat): Totals {
    Totals(t.requests + 1, Plus(t.tokens, e.measured.tokens), t.promptTotal + e.promptTotal,
           t.priced + (if e.cost.source != NoCostSource && e.cost.source != Unpriced then 1 else 0),
           t.unpriced + (if e.cost.source == Unpriced then 1 else 0),
           t.models + {e.measured.modelResolved}, t.warnings + warnings,
           if e.mode == Api then SumInto(t.cost, e.cost.usd) else t.cost,
           if e.mode == Subscription then SumInto(t.apiEquivalent, e.cost.apiEquivalent) else t.apiEquivalent)
  }

  /** One row of the aggregate query. */
  datatype Aggregate = Aggregate(totals: Totals, earliest: Option<int>, latest: Option<int>)

  function Least(a: Option<int>, b: int): int {
    if a.Some? && a.value <= b then a.value else b
  }

  function Greatest(a: Option<int>, b: int): int {
    if a.Some? && a.value >= b then a.value else b
  }

  function WarningsOf(warnings: map<Id, nat>, id: Id): nat {
    if id in warnings then warnings[id] else 0
  }

  /** `listing` is the events table in its order; `warnings` the number of warnings of each row. */
  function FoldOf(calls: Calls, warnings: map<Id, nat>, listing: seq<Id>, sid: string): Aggregate {
    if listing == [] then Aggregate(NO_TOTALS, None, None)
    else
      var before, id := FoldOf(calls, warnings, listing[..|listing| - 1], sid), listing[|listing| - 1];
      if id in calls && calls[id].fixed.sessionId == sid
      then Aggregate(AddRow(before.totals, calls[id], WarningsOf(warnings, id)),
                     Some(Least(before.earliest, calls[id].fixed.startedAt)),
                     Some(Greatest(before.latest, calls[id].fixed.startedAt)))
      else before
  }

  /** The events of a session, in the table's order. */
  function SessionIds(calls: Calls, listing: seq<Id>, sid: string): (ids: seq<Id>)
    ensures forall id :: id in ids <==> id in listing && id in calls && calls[id].fixed.sessionId == sid
  {
    if listing == [] then []
    else
      var before, id := SessionIds(calls, listing[..|listing| - 1], sid), listing[|listing| - 1];
      if id in calls && calls[id].fixed.sessionId == sid then before + [id] else before
  }

  datatype Count = Requests | Input | Output | CacheWrite5m | CacheWrite1h | CacheRead | Thinking | Prompt | PricedRows
                 | UnpricedRows | Warnings

  function CountIn(e: Event, warnings: nat, k: Count): int {
    match k
    case Requests => 1
    case Input => e.measured.tokens.input
    case Output => e.measured.tokens.output
    case CacheWrite5m => e.measured.tokens.cacheWrite5m
    case CacheWrite1h => e.measured.tokens.cacheWrite1h
    case CacheRead => e.measured.tokens.cacheRead
    case Thinking => e.measured.tokens.thinking
    case Prompt => e.promptTotal
    case PricedRows => if e.cost.source == NoCostSource || e.cost.source == Unpriced then 0 else 1
    case UnpricedRows => if e.cost.source == Unpriced then 1 else 0
    case Warnings => warnings
  }

  function TotalIn(t: Totals, k: Count): int {
    match k
    case Requests => t.requests
    case Input => t.tokens.input
    case Output => t.tokens.output
    case CacheWrite5m => t.tokens.cacheWrite5m
    case CacheWrite1h => t.tokens.cacheWrite1h
    case CacheRead => t.tokens.cacheRead
    case Thinking => t.tokens.thinking
    case Prompt => t.promptTotal
    case PricedRows => t.priced
    case UnpricedRows => t.unpriced
    case Warnings => t.warnings
  }

  function Sum(calls: Calls, warnings: map<Id, nat>, ids: seq<Id>, k: Count): int
    requires forall id :: id in ids ==> id in calls
  {
    if ids == [] then 0
    else
      var id := ids[|ids| - 1];
      Sum(calls, warnings, ids[..|ids| - 1], k) + CountIn(calls[id], WarningsOf(warnings, id), k)
  }

  /** The figures of the rows of one mode, in the column that mode reads: their sum, or none for none. */
  function Money(calls: Calls, ids: seq<Id>, mode: BillingMode): Option<real>
    requires forall id :: id in ids ==> id in calls
  {
    if ids == [] then None
    else
      var before, e := Money(calls, ids[..|ids| - 1], mode), calls[ids[|ids| - 1]];
      var figure := if mode == Subscription then e.cost.apiEquivalent else e.cost.usd;
      if e.mode != mode || figure.None? then before else Some(before.GetOr(0.0) + figure.value)
  }

  /** The earliest and the latest start, among the events and there. */
  predicate Bounds(calls: Calls, ids: seq<Id>, earliest: Option<int>, latest: Option<int>)
    requires forall id :: id in ids ==> id in calls
  {
    if ids == [] then earliest == None && latest == None
    else
      && earliest.Some? && latest.Some?
      && (exists id :: id in ids && calls[id].fixed.startedAt == earliest.value)
      && (exists id :: id in ids && calls[id].fixed.startedAt == latest.value)
      && forall id :: id in ids ==> earliest.value <= calls[id].fixed.startedAt <= latest.value
  }

  lemma AddRowByName(t: Totals, e: Event, warnings: nat, k: Count)
    ensures TotalIn(AddRow(t, e, warnings), k) == TotalIn(t, k) + CountIn(e, warnings, k)
  {
    match k case Requests => case Input => case Output => case CacheWrite5m => case CacheWrite1h => case CacheRead =>
            case Thinking => case Prompt => case PricedRows => case UnpricedRows => case Warnings =>
  }

  lemma {:induction false} SumNext(calls: Calls, warnings: map<Id, nat>, ids: seq<Id>, id: Id, k: Count)
    requires id in calls && forall i :: i in ids ==> i in calls
    ensures Sum(calls, warnings, ids + [id], k)
         == Sum(calls, warnings, ids, k) + CountIn(calls[id], WarningsOf(warnings, id), k)
  {
    assert (ids + [id])[..|ids|] == ids;
  }

  lemma {:induction false} MoneyNext(calls: Calls, ids: seq<Id>, id: Id, mode: BillingMode)
    requires id in calls && forall i :: i in ids ==> i in calls
    requires mode == Api || mode == Subscription
    ensures var e := calls[id];
            Money(calls, ids + [id], mode) ==
              if e.mode != mode then Money(calls, ids, mode)
              else SumInto(Money(calls, ids, mode), if mode == Subscription then e.cost.apiEquivalent else e.cost.usd)
  {
    assert (ids + [id])[..|ids|] == ids;
  }

  lemma {:induction false} SessionNext(calls: Calls, listing: seq<Id>, sid: string)
    requires listing != []
    ensures var init, id := listing[..|listing| - 1], listing[|listing| - 1];
            SessionIds(calls, listing, sid)
            == SessionIds(calls, init, sid) + if id in calls && calls[id].fixed.sessionId == sid then [id] else []
  {
  }

  lemma {:induction false} FoldNext(calls: Calls, warnings: map<Id, nat>, listing: seq<Id>, sid: string)
    requires listing != []
    ensures var init, id := listing[..|listing| - 1], listing[|listing| - 1];
            FoldOf(calls, warnings, listing, sid).totals
            == if id in calls && calls[id].fixed.sessionId == sid
               then AddRow(FoldOf(calls, warnings, init, sid).totals, calls[id], WarningsOf(warnings, id))
               else FoldOf(calls, warnings, init, sid).totals
  {
  }

  lemma {:induction false} CountsAreSums(calls: Calls, warnings: map<Id, nat>, listing: seq<Id>, sid: string, k: Count)
    ensures TotalIn(FoldOf(calls, warnings, listing, sid).totals, k) == Sum(calls, warnings, SessionIds(calls, listing, sid), k)
    decreases |listing|
  {
    if listing != [] {
      var init, id := listing[..|listing| - 1], listing[|listing| - 1];
      CountsAreSums(calls, warnings, init, sid, k);
      SessionNext(calls, listing, sid);
      FoldNext(calls, warnings, listing, sid);
      if id in calls && calls[id].fixed.sessionId == sid {
        SumNext(calls, warnings, SessionIds(calls, init, sid), id, k);
        AddRowByName(FoldOf(calls, warnings, init, sid).totals, calls[id], WarningsOf(warnings, id), k);
      }
    }
  }

  lemma {:induction false} MoneyIsSum(calls: Calls, warnings: map<Id, nat>, listing: seq<Id>, sid: string)
    ensures var t, ids := FoldOf(calls, warnings, listing, sid).totals, SessionIds(calls, listing, sid);
            t.cost == Money(calls, ids, Api) && t.apiEquivalent == Money(calls, ids, Subscription)
    decreases |listing|
  {
    if listing != [] {
      var init, id := listing[..|listing| - 1], listing[|listing| - 1];
      MoneyIsSum(calls, warnings, init, sid);
      SessionNext(calls, listing, sid);
      if id in calls && calls[id].fixed.sessionId == sid {
        MoneyNext(calls, SessionIds(calls, init, sid), id, Api);
        MoneyNext(calls, SessionIds(calls, init, sid), id, Subscription);
      }
    }
  }

  lemma {:induction false} ModelsAreNamed(calls: Calls, warnings: map<Id, nat>, listing: seq<Id>, sid: string, m: string)
    ensures m in FoldOf(calls, warnings, listing, sid).totals.models
       <==> exists id :: id in SessionIds(calls, listing, sid) && calls[id].measured.modelResolved == m
    decreases |listing|
  {
    if listing != [] {
      var init, id := listing[..|listing| - 1], listing[|listing| - 1];
      ModelsAreNamed(calls, warnings, init, sid, m);
      SessionNext(calls, listing, sid);
      if id in calls && calls[id].fixed.sessionId == sid && calls[id].measured.modelResolved == m {
        assert id in SessionIds(calls, listing, sid);
      }
    }
  }

  /** A session's re-derived row is, count by count, the sum over the session's events; its money likewise, by mode. */
  lemma SessionTotalsAreSums(calls: Calls, warnings: map<Id, nat>, listing: seq<Id>, sid: string, s: Session)
    ensures var ids, t := SessionIds(calls, listing, sid), Reconciled(s, FoldOf(calls, warnings, listing, sid)).totals;
            && (forall k :: TotalIn(t, k) == Sum(calls, warnings, ids, k))
            && t.cost == Money(calls, ids, Api) && t.apiEquivalent == Money(calls, ids, Subscription)
            && (forall m :: m in t.models <==> exists id :: id in ids && calls[id].measured.modelResolved == m)
    ensures var ids, s' := SessionIds(calls, listing, sid), Reconciled(s, FoldOf(calls, warnings, listing, sid));
            s'.prefixHash == s.prefixHash && Widened(calls, ids, s.firstSeen, s'.firstSeen, s.lastSeen, s'.lastSeen)
  {
    forall k
      ensures TotalIn(FoldOf(calls, warnings, listing, sid).totals, k) == Sum(calls, warnings, SessionIds(calls, listing, sid), k)
    {
      CountsAreSums(calls, warnings, listing, sid, k);
    }
    MoneyIsSum(calls, warnings, listing, sid);
    forall m: string
      ensures m in FoldOf(calls, warnings, listing, sid).totals.models
         <==> exists id :: id in SessionIds(calls, listing, sid) && calls[id].measured.modelResolved == m
    {
      ModelsAreNamed(calls, warnings, listing, sid, m);
    }
    SessionBounds(calls, warnings, listing, sid);
  }

  /** The seen-times reach at least to every event, and no further than they or some event did. */
  ghost predicate Widened(calls: Calls, ids: seq<Id>, first: int, first': int, last: int, last': int)
    requires forall id :: id in ids ==> id in calls
  {
    && first' <= first && last <= last'
    && (forall id :: id in ids ==> first' <= calls[id].fixed.startedAt <= last')
    && (first' == first || exists id :: id in ids && calls[id].fixed.startedAt == first')
    && (last' == last || exists id :: id in ids && calls[id].fixed.startedAt == last')
  }

  lemma {:induction false} SessionBounds(calls: Calls, warnings: map<Id, nat>, listing: seq<Id>, sid: string)
    ensures var a := FoldOf(calls, warnings, listing, sid);
            Bounds(calls, SessionIds(calls, listing, sid), a.earliest, a.latest)
    decreases |listing|
  {
    if listing != [] {
      var init, id := listing[..|listing| - 1], listing[|listing| - 1];
      SessionBounds(calls, warnings, init, sid);
      if id in calls && calls[id].fixed.sessionId == sid {
        var before, a := SessionIds(calls, init, sid), FoldOf(calls, warnings, init, sid);
        BoundsNext(calls, before, id, a.earliest, a.latest);
      }
    }
  }

  lemma BoundsNext(calls: Calls, ids: seq<Id>, id: Id, earliest: Option<int>, latest: Option<int>)
    requires id in calls && (forall i :: i in ids ==> i in calls) && Bounds(calls, ids, earliest, latest)
    ensures var at := calls[id].fixed.startedAt;
            Bounds(calls, ids + [id], Some(Least(earliest, at)), Some(Greatest(latest, at)))
  {
    assert id in ids + [id];
    assert forall i :: i in ids ==> i in ids + [id];
  }

  /** The session's row re-derived from its events; the seen-times only widen. */
  function Reconciled(s: Session, a: Aggregate): Session {
    Session(s.prefixHash, Least(a.earliest, s.firstSeen), Greatest(a.latest, s.lastSeen), a.totals)
  }

  function ReconciledIn(sessions: map<string, Session>, sids: set<string>, calls: Calls, warnings: map<Id, nat>,
                        listing: seq<Id>): map<string, Session>
  {
    map sid | sid in sessions ::
      if sid in sids then Reconciled(sessions[sid], FoldOf(calls, warnings, listing, sid)) else sessions[sid]
  }

  /** Every session's row is what re-deriving it would give. */
  predicate InStep(sessions: map<string, Session>, calls: Calls, warnings: map<Id, nat>, listing: seq<Id>) {
    forall sid :: sid in sessions ==> Reconciled(sessions[sid], FoldOf(calls, warnings, listing, sid)) == sessions[sid]
  }

  /** The sessions a pass touches. */
  function Touched(p: Pricer, calls: Calls, ids: seq<Id>, model: string): set<string>
    requires forall id :: id in ids ==> id in calls
  {
    set id | id in ids && Reads(calls[id], model) && VerdictOn(p, calls[id], model).Move?
             && calls[id].fixed.sessionId != "" :: calls[id].fixed.sessionId
  }

  lemma {:induction false} FoldUntouched(p: Pricer, calls: Calls, ids: seq<Id>, model: string, warnings: map<Id, nat>,
                                         listing: seq<Id>, sid: string)
    requires forall id :: id in ids ==> id in calls
    requires sid !in Touched(p, calls, ids, model) && sid != ""
    ensures FoldOf(After(p, calls, ids, model), warnings, listing, sid) == FoldOf(calls, warnings, listing, sid)
    decreases |listing|
  {
    if listing != [] {
      FoldUntouched(p, calls, ids, model, warnings, listing[..|listing| - 1], sid);
      var id := listing[|listing| - 1];
      if id in calls && calls[id].fixed.sessionId == sid && id in ids && Reads(calls[id], model) {
        assert !VerdictOn(p, calls[id], model).Move?;
      }
    }
  }

  lemma ReconcileSettles(s: Session, a: Aggregate)
    ensures Reconciled(Reconciled(s, a), a) == Reconciled(s, a)
  {
  }

  /** A pass leaves every session in step that was in step before it. */
  lemma SessionsStayInStep(p: Pricer, calls: Calls, ids: seq<Id>, model: string, warnings: map<Id, nat>,
                           listing: seq<Id>, sessions: map<string, Session>)
    requires forall id :: id in ids ==> id in calls
    requires "" !in sessions && InStep(sessions, calls, warnings, listing)
    ensures var after := After(p, calls, ids, model);
            InStep(ReconciledIn(sessions, Touched(p, calls, ids, model), after, warnings, listing), after, warnings, listing)
  {
    var after, sids := After(p, calls, ids, model), Touched(p, calls, ids, model);
    forall sid | sid in sessions
      ensures var s := ReconciledIn(sessions, sids, after, warnings, listing)[sid];
              Reconciled(s, FoldOf(after, warnings, listing, sid)) == s
    {
      if sid in sids {
        ReconcileSettles(sessions[sid], FoldOf(after, warnings, listing, sid));
      } else {
        FoldUntouched(p, calls, ids, model, warnings, listing, sid);
      }
    }
  }

  // ---------- the pass ----------

  datatype Books = Books(calls: Calls, sessions: map<string, Session>)

  /** One row's turn in the loop. */
  method Judge(p: Pricer, e: Event, model: string) returns (v: Verdict)
    ensures v == VerdictOn(p, e, model)
    ensures v.Move? ==> RoutedFigure(e) != Some(v.usd) || e.cost.source != v.source
  {
    if (model == "" || e.cost.source != Unpriced) && !InScope(e.cost.source) {
      return Skip;
    }
    var name, at := e.measured.modelResolved, TimeFromNano(e.fixed.startedAt);
    if e.mode == Local {
      name, at := LOCAL_PRICE_MODEL, LOCAL_PRICE_AT;
    }
    var usage := Usage(e.measured.tokens.(thinking := 0), e.cost.source == CacheTtlUnknown);
    var price := p.compute(name, usage, e.measured.speed, e.measured.serviceTier, at);
    if price == NoPrice {
      return Skip;
    }
    var stored := if IsProjection(e.mode) then e.cost.apiEquivalent else e.cost.usd;
    if stored == Some(price.usd) && price.source == e.cost.source {
      return Same;
    }
    return Move(price.usd, price.source);
  }

  /** A candidate's turn in the loop. */
  method RepriceRow(p: Pricer, before: Pass, id: Id, e: Event, model: string, dryRun: bool) returns (pass: Pass)
    ensures pass == Stepped(before, id, e, VerdictOn(p, e, model), dryRun)
  {
    pass := before;
    var verdict := Judge(p, e, model);
    match verdict
    case Skip =>
      pass := pass.(counts := pass.counts.(skipped := pass.counts.skipped + 1));
    case Same =>
      pass := pass.(counts := pass.counts.(agreed := pass.counts.agreed + 1));
    case Move(usd, source) =>
      pass := pass.(counts := pass.counts.(moved := pass.counts.moved + 1));
      if !dryRun {
        pass := pass.(tx := pass.tx[id := Repriced(e, usd, source)]);
        if e.fixed.sessionId != "" {
          pass := pass.(touched := pass.touched + {e.fixed.sessionId});
        }
      }
  }

  /** RepriceCosts: one transaction; a dry run computes the same counts and rolls back. */
  method RepriceCosts(p: Pricer, books: Books, warnings: map<Id, nat>, listing: seq<Id>, model: string, dryRun: bool)
    returns (counts: Counts, books': Books)
    requires (forall id :: id in listing <==> id in books.calls)
    requires forall i, j :: 0 <= i < j < |listing| ==> listing[i] != listing[j]
    ensures counts == CountsOf(p, books.calls, listing, model)
    ensures dryRun ==> books' == books
    ensures !dryRun ==>
      var after := After(p, books.calls, listing, model);
      books' == Books(after, ReconciledIn(books.sessions, Touched(p, books.calls, listing, model), after, warnings, listing))
  {
    var calls := books.calls;
    var pass := Pass(Counts(0, 0, 0), calls, {});
    assert listing[..0] == [];
    for i := 0 to |listing|
      invariant Passed(p, calls, listing[..i], model, dryRun, pass)
    {
      var id := listing[i];
      PassedNext(p, calls, listing, i, model, dryRun, pass);
      if Reads(calls[id], model) {
        pass := RepriceRow(p, pass, id, calls[id], model, dryRun);
      }
    }
    assert listing[..|listing|] == listing;
    counts := pass.counts;
    if dryRun {
      return counts, books;
    }
    var sessions := ReconcileEach(books.sessions, pass.touched, pass.tx, warnings, listing);
    books' := Books(pass.tx, sessions);
  }

  /** The counts so far, the rows as the transaction sees them, and the sessions to re-derive. */
  datatype Pass = Pass(counts: Counts, tx: Calls, touched: set<string>)

  predicate Passed(p: Pricer, calls: Calls, ids: seq<Id>, model: string, dryRun: bool, pass: Pass)
    requires forall id :: id in ids ==> id in calls
  {
    && pass.counts == CountsOf(p, calls, ids, model)
    && pass.tx == (if dryRun then calls else After(p, calls, ids, model))
    && pass.touched == (if dryRun then {} else Touched(p, calls, ids, model))
  }

  /** What one row's verdict does to the pass. */
  function Stepped(pass: Pass, id: Id, e: Event, v: Verdict, dryRun: bool): Pass {
    match v
    case Skip => pass.(counts := pass.counts.(skipped := pass.counts.skipped + 1))
    case Same => pass.(counts := pass.counts.(agreed := pass.counts.agreed + 1))
    case Move(usd, source) =>
      var counts := pass.counts.(moved := pass.counts.moved + 1);
      if dryRun then pass.(counts := counts)
      else Pass(counts, pass.tx[id := Repriced(e, usd, source)],
                if e.fixed.sessionId != "" then pass.touched + {e.fixed.sessionId} else pass.touched)
  }

  lemma PassedNext(p: Pricer, calls: Calls, listing: seq<Id>, i: nat, model: string, dryRun: bool, pass: Pass)
    requires i < |listing| && (forall id :: id in listing ==> id in calls)
    requires forall j, k :: 0 <= j < k < |listing| ==> listing[j] != listing[k]
    requires Passed(p, calls, listing[..i], model, dryRun, pass)
    ensures var id, e := listing[i], calls[listing[i]];
            Passed(p, calls, listing[..i + 1], model, dryRun,
                   if Reads(e, model) then Stepped(pass, id, e, VerdictOn(p, e, model), dryRun) else pass)
  {
    PassSnoc(p, calls, listing, i, model);
    CountsSnoc(p, calls, listing, i, model);
    SameRow(After(p, calls, listing[..i], model), listing[i]);
  }

  lemma {:induction false} CountsSnoc(p: Pricer, calls: Calls, listing: seq<Id>, i: nat, model: string)
    requires i < |listing| && forall id :: id in listing ==> id in calls
    ensures var before, e := CountsOf(p, calls, listing[..i], model), calls[listing[i]];
            CountsOf(p, calls, listing[..i + 1], model)
            == if !Reads(e, model) then before
               else match VerdictOn(p, e, model)
                    case Skip => before.(skipped := before.skipped + 1)
                    case Same => before.(agreed := before.agreed + 1)
                    case Move(_, _) => before.(moved := before.moved + 1)
  {
    assert listing[..i + 1][..i] == listing[..i];
  }

  lemma AfterSnoc(p: Pricer, calls: Calls, listing: seq<Id>, i: nat, model: string)
    requires i < |listing| && listing[i] in calls
    requires forall j, k :: 0 <= j < k < |listing| ==> listing[j] != listing[k]
    ensures var id, before := listing[i], After(p, calls, listing[..i], model);
            && id in before && before[id] == calls[id]
            && After(p, calls, listing[..i + 1], model) == before[id := RowAfter(p, calls[id], model)]
  {
    assert listing[..i + 1] == listing[..i] + [listing[i]];
    assert listing[i] !in listing[..i];
  }

  lemma {:induction false} PassSnoc(p: Pricer, calls: Calls, listing: seq<Id>, i: nat, model: string)
    requires i < |listing| && forall id :: id in listing ==> id in calls
    requires forall j, k :: 0 <= j < k < |listing| ==> listing[j] != listing[k]
    ensures var id, e := listing[i], calls[listing[i]];
            var before, next := listing[..i], listing[..i + 1];
            var moves := Reads(e, model) && VerdictOn(p, e, model).Move?;
            && id in After(p, calls, before, model)
            && After(p, calls, next, model) == After(p, calls, before, model)[id := RowAfter(p, e, model)]
            && After(p, calls, before, model)[id] == e
            && Touched(p, calls, next, model)
               == Touched(p, calls, before, model)
                  + (if moves && e.fixed.sessionId != "" then {e.fixed.sessionId} else {})
  {
    AfterSnoc(p, calls, listing, i, model);
    assert listing[..i + 1] == listing[..i] + [listing[i]];
  }

  /** Each touched session once. */
  method ReconcileEach(sessions: map<string, Session>, sids: set<string>, calls: Calls, warnings: map<Id, nat>,
                       listing: seq<Id>)
    returns (done: map<string, Session>)
    ensures done == ReconciledIn(sessions, sids, calls, warnings, listing)
  {
    done := sessions;
    var todo := sids;
    while todo != {}
      invariant todo <= sids
      invariant done == ReconciledIn(sessions, sids - todo, calls, warnings, listing)
      decreases todo
    {
      var sid: string :| sid in todo;
      if sid in done {
        done := done[sid := Reconciled(done[sid], FoldOf(calls, warnings, listing, sid))];
      }
      todo := todo - {sid};
    }
  }

  // ---------- a pass is a run of the protocol ----------

  function PassActions(p: Pricer, calls: Calls, ids: seq<Id>, model: string): seq<P.Action>
    requires forall id :: id in ids ==> id in calls
  {
    if ids == [] then []
    else
      var id := ids[|ids| - 1];
      PassActions(p, calls, ids[..|ids| - 1], model) + RowActions(p, calls[id], id, model)
  }

  function RowActions(p: Pricer, e: Event, id: Id, model: string): seq<P.Action> {
    if Reads(e, model) && VerdictOn(p, e, model).Move? then
      var v := VerdictOn(p, e, model);
      [P.Reprice(id, v.usd, v.source)]
    else []
  }

  lemma RunOneMore(z: Compressor, s: P.Sys, run: seq<P.Action>, a: P.Action)
    ensures P.Run(z, s, run + [a]) == P.Step(z, P.Run(z, s, run), a)
  {
    assert (run + [a])[..|run|] == run;
  }

  /** What a pass does to the calls is what reprice actions do, so all that holds of every run holds across it. */
  lemma {:induction false} PassIsRun(z: Compressor, s: P.Sys, p: Pricer, listing: seq<Id>, n: nat, model: string)
    requires n <= |listing| && forall id :: id in listing ==> id in s.db.events
    requires forall j, k :: 0 <= j < k < |listing| ==> listing[j] != listing[k]
    ensures P.Run(z, s, PassActions(p, s.db.events, listing[..n], model))
         == s.(db := s.db.(events := After(p, s.db.events, listing[..n], model)))
    decreases n
  {
    var calls := s.db.events;
    if n == 0 {
      assert After(p, calls, [], model) == calls;
      assert listing[..0] == [];
    } else {
      PassIsRun(z, s, p, listing, n - 1, model);
      AfterSnoc(p, calls, listing, n - 1, model);
      ActionsSnoc(p, calls, listing, n - 1, model);
      RowIsRun(z, s, p, PassActions(p, calls, listing[..n - 1], model), After(p, calls, listing[..n - 1], model),
               listing[n - 1], model);
    }
  }

  /** One row of a pass, after the actions of the rows before it. */
  lemma RowIsRun(z: Compressor, s: P.Sys, p: Pricer, run: seq<P.Action>, before: Calls, id: Id, model: string)
    requires P.Run(z, s, run) == s.(db := s.db.(events := before)) && id in before
    ensures P.Run(z, s, run + RowActions(p, before[id], id, model))
         == s.(db := s.db.(events := before[id := RowAfter(p, before[id], model)]))
  {
    var v := VerdictOn(p, before[id], model);
    if Reads(before[id], model) && v.Move? {
      RunOneMore(z, s, run, P.Reprice(id, v.usd, v.source));
      RepriceTaken(z, P.Run(z, s, run), id, v.usd, v.source);
    } else {
      SameRow(before, id);
      assert run + [] == run;
    }
  }

  lemma RepriceTaken(z: Compressor, s: P.Sys, id: Id, usd: real, source: CostSource)
    requires id in s.db.events
    ensures P.Step(z, s, P.Reprice(id, usd, source))
         == s.(db := s.db.(events := s.db.events[id := Repriced(s.db.events[id], usd, source)]))
  {
  }

  lemma ActionsSnoc(p: Pricer, calls: Calls, listing: seq<Id>, i: nat, model: string)
    requires i < |listing| && forall id :: id in listing ==> id in calls
    ensures PassActions(p, calls, listing[..i + 1], model)
         == PassActions(p, calls, listing[..i], model) + RowActions(p, calls[listing[i]], listing[i], model)
  {
    assert listing[..i + 1][..i] == listing[..i];
  }

  lemma SameRow(calls: Calls, id: Id)
    requires id in calls
    ensures calls[id := calls[id]] == calls
  {
  }
}
