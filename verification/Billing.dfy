/** The billing split: which of the two cost columns a row's figure lives in. */
module Billing {
  import opened Prelude
  import opened Events
  import opened Merge

  /** Subscription and local figures are projections; every other mode is real spend. */
  predicate IsProjection(mode: BillingMode) {
    mode == Subscription || mode == Local
  }

  /** The insert-time and reprice-time switch that puts a figure in its column. */
  function Routed(mode: BillingMode, usd: Option<real>, source: CostSource): Cost {
    if IsProjection(mode) then Cost(None, usd, source) else Cost(usd, None, source)
  }

  predicate SplitKept(e: Event) {
    if IsProjection(e.mode) then e.cost.usd == None else e.cost.apiEquivalent == None
  }

  predicate LocalTogether(e: Event) {
    e.mode == Local <==> e.account == LocalAccount
  }

  function Repriced(e: Event, usd: real, source: CostSource): Event {
    e.(cost := Routed(e.mode, Some(usd), source))
  }

  /** A merge never leaves a figure in the column its row's mode does not read. */
  lemma MergeKeepsSplit(existing: Event, archived: Mask, incoming: Event)
    requires SplitKept(existing) && SplitKept(incoming)
    ensures SplitKept(Merged(existing, archived, incoming))
  {
  }

  /** After any merge, whatever the two rows were, local mode and the local account coincide. */
  lemma MergeMakesLocalTogether(existing: Event, archived: Mask, incoming: Event)
    ensures LocalTogether(Merged(existing, archived, incoming))
  {
  }

  predicate FromProxy(e: Event) {
    e.fixed.source == Proxy || exists i :: 0 <= i < |e.sourceRefs| && e.sourceRefs[i] == Proxy
  }

  /** The proxy's row, when exactly one of the two rows knows the proxy, one is local, and it has a mode. */
  predicate Decides(side: Event, other: Event) {
    FromProxy(side) && !FromProxy(other) && (side.mode == Local || other.mode == Local) && side.mode != NoMode
  }

  /** The mode the row with the winning counts gives: its own, else that of the column it priced. */
  predicate ModeOfWinner(mode: BillingMode, winner: Event, existing: Event) {
    if winner.mode != NoMode then mode == winner.mode
    else if winner.cost.usd.Some? then mode == Api
    else if winner.cost.apiEquivalent.Some? then mode == Subscription
    else mode == existing.mode
  }

  function FirstNamed(accounts: seq<Account>): Account {
    if accounts == [] then NoAccount
    else if accounts[0].Named? then accounts[0] else FirstNamed(accounts[1..])
  }

  /**
   Who a merged call was billed to. The proxy's row decides where it can; elsewhere the mode is the winner's. Outside
   the local mode the account is the first real one, the deciding row's before the stored row's before the new one's.
   */
  lemma WhoIsBilled(existing: Event, archived: Mask, incoming: Event)
    ensures var m := Merged(existing, archived, incoming);
            var winner := SideOf(Winner(existing, incoming), existing, incoming);
            && (Decides(existing, incoming) ==> m.mode == existing.mode)
            && (Decides(incoming, existing) ==> m.mode == incoming.mode)
            && (!Decides(existing, incoming) && !Decides(incoming, existing) ==> ModeOfWinner(m.mode, winner, existing))
            && (m.mode == Local ==> m.account == LocalAccount)
            && (m.mode != Local ==>
                  m.account == FirstNamed((if Decides(incoming, existing) then [incoming.account] else [])
                                          + [existing.account, incoming.account]))
  {
    assert ProxyInvolved(existing) == FromProxy(existing) && ProxyInvolved(incoming) == FromProxy(incoming);
    var a, b := existing.account, incoming.account;
    NamedOfTwo(a, b);
    assert [] + [a, b] == [a, b];
    assert ([b] + [a, b])[1..] == [a, b];
  }

  lemma NamedOfTwo(a: Account, b: Account)
    ensures FirstNamed([a, b]) == if a.Named? then a else if b.Named? then b else NoAccount
  {
    assert [a, b][1..] == [b] && [b][1..] == [];
    assert FirstNamed([b]) == if b.Named? then b else NoAccount;
  }

  /** The figure is the winner's, or none when another mode than the winner's was decided. */
  lemma WhatIsBilled(existing: Event, archived: Mask, incoming: Event)
    ensures var m := Merged(existing, archived, incoming);
            var winner := SideOf(Winner(existing, incoming), existing, incoming);
            m.cost == if (Decides(existing, incoming) && winner.mode != existing.mode)
                         || (Decides(incoming, existing) && winner.mode != incoming.mode)
                      then Cost(None, None, Unpriced) else winner.cost
  {
    assert ProxyInvolved(existing) == FromProxy(existing) && ProxyInvolved(incoming) == FromProxy(incoming);
  }

  /** A mismatch is two complete captures, both with some count, that differ in a count. */
  lemma MismatchExactly(existing: Event, incoming: Event)
    ensures var t, u := existing.measured.tokens, incoming.measured.tokens;
            Mismatch(existing, incoming) <==>
              && existing.captureComplete && incoming.captureComplete
              && t != Tokens(0, 0, 0, 0, 0, 0) && u != Tokens(0, 0, 0, 0, 0, 0)
              && (t.input != u.input || t.output != u.output || t.cacheWrite5m != u.cacheWrite5m
                  || t.cacheWrite1h != u.cacheWrite1h || t.cacheRead != u.cacheRead || t.thinking != u.thinking)
  {
  }

  /** A figure survives a merge only in the mode it was priced for (an empty mode reads cost_usd). */
  lemma FigureFollowsMode(existing: Event, archived: Mask, incoming: Event)
    requires SplitKept(existing) && SplitKept(incoming)
    ensures var m := Merged(existing, archived, incoming);
            var winner := SideOf(Winner(existing, incoming), existing, incoming);
            && m.cost == (if Arbiter(existing, incoming).Some? && winner.mode != m.mode then NO_COST else winner.cost)
            && (winner.mode != NoMode && winner.mode != m.mode ==> m.cost.usd == None && m.cost.apiEquivalent == None)
  {
  }
}
