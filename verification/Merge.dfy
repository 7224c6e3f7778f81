/** Merging a second delivery of one request id into the stored row (internal/store/merge.go). */
module Merge {
  import opened Prelude
  import opened Events

  // ---------- which side supplies the measured columns ----------

  datatype Side = Existing | Incoming

  function Winner(existing: Event, incoming: Event): Side {
    if incoming.captureComplete then
      if !incoming.Observed() && existing.Observed() then Existing else Incoming
    else
      if !existing.Observed() && incoming.Observed() then Incoming else Existing
  }

  function SideOf(s: Side, existing: Event, incoming: Event): Event {
    if s == Existing then existing else incoming
  }

  /** Two complete captures that both measured usage and disagree on it. */
  predicate Mismatch(existing: Event, incoming: Event) {
    && existing.captureComplete && incoming.captureComplete
    && existing.Observed() && incoming.Observed()
    && existing.measured.tokens != incoming.measured.tokens
  }

  // ---------- who the call was billed to ----------

  predicate ProxyInvolved(e: Event) {
    e.fixed.source == Proxy || Proxy in e.sourceRefs
  }

  /** The side whose billing identity overrules the winner's, if any. */
  function Arbiter(existing: Event, incoming: Event): Option<Event> {
    if existing.mode != Local && incoming.mode != Local then None
    else if ProxyInvolved(existing) == ProxyInvolved(incoming) then None
    else
      var side := if ProxyInvolved(incoming) then incoming else existing;
      if side.mode == NoMode then None else Some(side)
  }

  function MergedMode(existing: Event, incoming: Event): BillingMode {
    var winner := SideOf(Winner(existing, incoming), existing, incoming);
    match Arbiter(existing, incoming)
    case Some(side) => side.mode
    case None =>
      if winner.mode != NoMode then winner.mode
      else if winner.cost.usd.Some? then Api
      else if winner.cost.apiEquivalent.Some? then Subscription
      else existing.mode
  }

  function MergedCost(existing: Event, incoming: Event): Cost {
    var winner := SideOf(Winner(existing, incoming), existing, incoming);
    match Arbiter(existing, incoming)
    case Some(side) => if winner.mode != side.mode then NO_COST else winner.cost
    case None => winner.cost
  }

  function PreferAccount(a: Account, b: Account): Account {
    if a != NoAccount then a else b
  }

  function FirstRealAccount(a: Account, b: Account): Account {
    if a.Named? then a else if b.Named? then b else NoAccount
  }

  function AlignedAccount(existing: Event, incoming: Event): Account {
    var preferred := PreferAccount(existing.account, incoming.account);
    match Arbiter(existing, incoming)
    case Some(side) => PreferAccount(side.account, preferred)
    case None => preferred
  }

  function MergedAccount(existing: Event, incoming: Event): Account {
    var aligned := AlignedAccount(existing, incoming);
    if MergedMode(existing, incoming) == Local then LocalAccount
    else if aligned == LocalAccount then FirstRealAccount(existing.account, incoming.account)
    else aligned
  }

  // ---------- columns that are only ever backfilled ----------

  function Prefer(a: string, b: string): string {
    if a != "" then a else b
  }

  function PreferPtr(a: Option<string>, b: Option<string>): Option<string> {
    if a.Some? then a else b
  }

  function MergedCarried(a: Carried, b: Carried): Carried {
    Carried(Prefer(a.authKind, b.authKind), Prefer(a.clientVersion, b.clientVersion),
            Prefer(a.project, b.project), Prefer(a.gitBranch, b.gitBranch),
            Prefer(a.cliEntrypoint, b.cliEntrypoint), a.isSidechain || b.isSidechain,
            Prefer(a.httpMethod, b.httpMethod), Prefer(a.path, b.path),
            if a.status == 0 then b.status else a.status,
            Prefer(a.reqHeaders, b.reqHeaders), Prefer(a.respHeaders, b.respHeaders),
            PreferPtr(a.prefixHash, b.prefixHash), Prefer(a.replayOf, b.replayOf),
            Prefer(a.replayEdits, b.replayEdits), Prefer(a.transcriptRole, b.transcriptRole))
  }

  function AddSource(out: seq<Source>, s: Source): seq<Source> {
    if s == NoSource || s in out then out else out + [s]
  }

  function AddSources(out: seq<Source>, add: seq<Source>): seq<Source>
    decreases |add|
  {
    if add == [] then out else AddSources(AddSource(out, add[0]), add[1..])
  }

  /** unionStrings: the sources in first-seen order, without blanks or repeats. */
  function UnionSources(existing: seq<Source>, add: seq<Source>): seq<Source> {
    AddSources(AddSources([], existing), add)
  }

  // ---------- bodies ----------

  /** The merge's presence test: a hot byte, or the marker says the archive has it. */
  predicate Present(e: Event, archived: Mask, c: Col) {
    !e.Empty(c) || c in archived
  }

  /** A column with no body takes the incoming cell, NULL included. */
  function MergedBodies(existing: Event, archived: Mask, incoming: Event): map<Col, Bytes> {
    map c: Col | c in (if Present(existing, archived, c) then existing.bodies else incoming.bodies) ::
      (if Present(existing, archived, c) then existing.bodies else incoming.bodies)[c]
  }

  /** capture_complete, from the sides that supply the request and the response body. */
  function MergedComplete(existing: Event, archived: Mask, incoming: Event): bool {
    var fromExisting := Present(existing, archived, Req) || Present(existing, archived, Resp);
    var fromIncoming := (!Present(existing, archived, Req) && !incoming.Empty(Req))
                     || (!Present(existing, archived, Resp) && !incoming.Empty(Resp));
    if fromExisting && fromIncoming then existing.captureComplete && incoming.captureComplete
    else if fromIncoming then incoming.captureComplete
    else existing.captureComplete
  }

  /** The value written to req_tool_names: NULL when the row has no request body. */
  function StoredToolNames(e: Event, archived: Mask): Option<string> {
    if Present(e, archived, Req) then Some(e.toolNames.GetOr("")) else None
  }

  /** The row as stored after merging `incoming` into `existing`, whose marker has `archived`. */
  function Merged(existing: Event, archived: Mask, incoming: Event): Event {
    var winner := SideOf(Winner(existing, incoming), existing, incoming);
    var merged := Event(
      existing.fixed,
      UnionSources(existing.sourceRefs, [existing.fixed.source, incoming.fixed.source]),
      winner.measured, winner.measured.tokens.PromptTotal(),
      MergedCost(existing, incoming), MergedAccount(existing, incoming), MergedMode(existing, incoming),
      MergedCarried(existing.carried, incoming.carried),
      MergedComplete(existing, archived, incoming),
      if Present(existing, archived, Req) then existing.toolNames else incoming.toolNames,
      MergedBodies(existing, archived, incoming));
    merged.(toolNames := StoredToolNames(merged, archived))
  }

  /** The row as stored when no row has its request id yet. */
  function Inserted(e: Event): Event {
    e.(promptTotal := e.measured.tokens.PromptTotal(), toolNames := StoredToolNames(e, {}))
  }
}
