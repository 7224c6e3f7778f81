/** mergeEvents and its helpers in the source's own, step-by-step form. */
module MergeSteps {
  import opened Prelude
  import opened Events
  import opened Merge

  function TokenField(t: Tokens, i: nat): int {
    [t.input, t.output, t.cacheWrite5m, t.cacheWrite1h, t.cacheRead, t.thinking][if i < 6 then i else 0]
  }

  method TokensDiffer(a: Tokens, b: Tokens) returns (differ: bool)
    ensures differ <==> a != b
  {
    differ := false;
    var i := 0;
    while i < 6
      invariant i <= 6
      invariant differ <==> exists k: nat :: k < i && TokenField(a, k) != TokenField(b, k)
    {
      if TokenField(a, i) != TokenField(b, i) {
        differ := true;
      }
      i := i + 1;
    }
    assert TokenField(a, 0) == a.input && TokenField(b, 0) == b.input;
    assert TokenField(a, 1) == a.output && TokenField(b, 1) == b.output;
    assert TokenField(a, 2) == a.cacheWrite5m && TokenField(b, 2) == b.cacheWrite5m;
    assert TokenField(a, 3) == a.cacheWrite1h && TokenField(b, 3) == b.cacheWrite1h;
    assert TokenField(a, 4) == a.cacheRead && TokenField(b, 4) == b.cacheRead;
    assert TokenField(a, 5) == a.thinking && TokenField(b, 5) == b.thinking;
  }

  lemma {:induction false} AddSourcesStep(out: seq<Source>, xs: seq<Source>, i: nat)
    requires i < |xs|
    ensures AddSources(out, xs[..i + 1]) == AddSource(AddSources(out, xs[..i]), xs[i])
    decreases i
  {
    if i == 0 {
      assert xs[..1][1..] == [];
    } else {
      AddSourcesStep(AddSource(out, xs[0]), xs[1..], i - 1);
      assert xs[..i + 1][1..] == xs[1..][..i];
      assert xs[..i][1..] == xs[1..][..i - 1];
    }
  }

  method AppendNew(seen: seq<Source>, xs: seq<Source>) returns (out: seq<Source>)
    ensures out == AddSources(seen, xs)
  {
    out := seen;
    for i := 0 to |xs|
      invariant out == AddSources(seen, xs[..i])
    {
      AddSourcesStep(seen, xs, i);
      if xs[i] != NoSource && xs[i] !in out {
        out := out + [xs[i]];
      }
    }
    assert xs[..|xs|] == xs;
  }

  /** Makes the proxy the authority on who the call was billed to. */
  method AlignBillingIdentity(draft: Event, existing: Event, incoming: Event, winner: Event) returns (merged: Event)
    ensures match Arbiter(existing, incoming)
            case None => merged == draft
            case Some(side) =>
              merged == draft.(mode := side.mode, account := PreferAccount(side.account, draft.account),
                               cost := if winner.mode != side.mode then NO_COST else draft.cost)
  {
    merged := draft;
    if existing.mode != Local && incoming.mode != Local {
      return;
    }
    var exP, inP := ProxyInvolved(existing), ProxyInvolved(incoming);
    if exP == inP {
      return;
    }
    var proxySide := existing;
    if inP {
      proxySide := incoming;
    }
    if proxySide.mode == NoMode {
      return;
    }
    merged := merged.(mode := proxySide.mode);
    if proxySide.account != NoAccount {
      merged := merged.(account := proxySide.account);
    }
    if winner.mode != merged.mode {
      merged := merged.(cost := Cost(None, None, Unpriced));
    }
  }

  /** Keeps "the mode is local" and "the account is the local account" one statement. */
  method EnforceLocalAccount(draft: Event, existing: Event, incoming: Event) returns (merged: Event)
    ensures merged == draft.(account := merged.account)
    ensures merged.account ==
      if draft.mode == Local then LocalAccount
      else if draft.account == LocalAccount then FirstRealAccount(existing.account, incoming.account)
      else draft.account
    ensures merged.mode == Local <==> merged.account == LocalAccount
  {
    merged := draft;
    if merged.mode == Local {
      merged := merged.(account := LocalAccount);
    } else if merged.account == LocalAccount {
      merged := merged.(account := NoAccount);
      var sides := [existing, incoming];
      var i := 0;
      while i < |sides| && !(sides[i].account != NoAccount && sides[i].account != LocalAccount)
        invariant i <= |sides|
        invariant forall k :: 0 <= k < i ==> !sides[k].account.Named?
      {
        i := i + 1;
      }
      assert sides[0] == existing && sides[1] == incoming;
      if i < |sides| {
        merged := merged.(account := sides[i].account);
      }
    }
  }

  /** Complete exactly when every side that contributed a body is; with no body at all, the row's own flag stays. */
  method CaptureCompleteFromBodies(existing: bool, incoming: bool, fromExisting: bool, fromIncoming: bool)
    returns (complete: bool)
    ensures fromExisting || fromIncoming ==>
              (complete <==> (fromExisting ==> existing) && (fromIncoming ==> incoming))
    ensures !fromExisting && !fromIncoming ==> complete == existing
  {
    match (fromExisting, fromIncoming)
    case (true, true) => complete := existing && incoming;
    case (false, true) => complete := incoming;
    case _ => complete := existing;
  }

  /** The columns only one side can supply: kept where there is something, else taken. */
  method MergeCarried(draft: Event, existing: Event, incoming: Event) returns (merged: Event)
    requires draft.carried == existing.carried
    ensures merged == draft.(carried := MergedCarried(existing.carried, incoming.carried))
  {
    var c, a, b := draft.carried, existing.carried, incoming.carried;
    c := c.(authKind := Prefer(a.authKind, b.authKind));
    c := c.(clientVersion := Prefer(a.clientVersion, b.clientVersion), project := Prefer(a.project, b.project),
            gitBranch := Prefer(a.gitBranch, b.gitBranch), cliEntrypoint := Prefer(a.cliEntrypoint, b.cliEntrypoint),
            isSidechain := a.isSidechain || b.isSidechain);
    c := c.(httpMethod := Prefer(a.httpMethod, b.httpMethod), path := Prefer(a.path, b.path));
    if a.status == 0 {
      c := c.(status := b.status);
    }
    c := c.(reqHeaders := Prefer(a.reqHeaders, b.reqHeaders), respHeaders := Prefer(a.respHeaders, b.respHeaders));
    c := c.(prefixHash := PreferPtr(a.prefixHash, b.prefixHash), replayOf := Prefer(a.replayOf, b.replayOf),
            replayEdits := Prefer(a.replayEdits, b.replayEdits));
    c := c.(transcriptRole := Prefer(a.transcriptRole, b.transcriptRole));
    merged := draft.(carried := c);
  }

  /** Column by column, as the merge decides it; equal to `Merged` once stored. */
  method MergeEvents(existing: Event, archived: Mask, incoming: Event) returns (merged: Event, mismatch: bool)
    ensures merged.(toolNames := StoredToolNames(merged, archived)) == Merged(existing, archived, incoming)
    ensures mismatch == Mismatch(existing, incoming)
  {
    merged := existing;
    var refs := AppendNew([], existing.sourceRefs);
    refs := AppendNew(refs, [existing.fixed.source, incoming.fixed.source]);
    merged := merged.(sourceRefs := refs);

    var pick;
    pick, mismatch := PickWinner(existing, incoming);
    var winner := SideOf(pick, existing, incoming);
    merged := merged.(measured := winner.measured, cost := winner.cost,
                      promptTotal := winner.measured.tokens.PromptTotal());

    merged := MergeBilling(merged, existing, incoming, winner);
    merged := MergeCarried(merged, existing, incoming);
    merged := MergeBodies(merged, existing, archived, incoming);
    merged := EnforceLocalAccount(merged, existing, incoming);
  }

  /** The more complete record wins, except that a side with no usage never beats one that has some. */
  method PickWinner(existing: Event, incoming: Event) returns (pick: Side, mismatch: bool)
    ensures pick == Winner(existing, incoming)
    ensures mismatch == Mismatch(existing, incoming)
  {
    var tokensDiffer := TokensDiffer(existing.measured.tokens, incoming.measured.tokens);
    pick := Existing;
    mismatch := false;
    if existing.captureComplete && incoming.captureComplete {
      pick := Incoming;
      mismatch := tokensDiffer && existing.Observed() && incoming.Observed();
    } else if !existing.captureComplete && incoming.captureComplete {
      pick := Incoming;
    }
    if !SideOf(pick, existing, incoming).Observed() {
      var other := if pick == Incoming then Existing else Incoming;
      if SideOf(other, existing, incoming).Observed() {
        pick := other;
      }
    }
  }

  /** Account, mode and cost, up to the local-account rule. */
  method MergeBilling(draft: Event, existing: Event, incoming: Event, winner: Event) returns (merged: Event)
    requires winner == SideOf(Winner(existing, incoming), existing, incoming)
    requires draft.account == existing.account && draft.cost == winner.cost
    ensures merged == draft.(account := AlignedAccount(existing, incoming),
                             mode := MergedMode(existing, incoming), cost := MergedCost(existing, incoming))
  {
    merged := draft;
    if merged.account == NoAccount {
      merged := merged.(account := incoming.account);
    }
    merged := merged.(mode := winner.mode);
    merged := AlignBillingIdentity(merged, existing, incoming, winner);
    if merged.mode == NoMode {
      // The label follows the money.
      if winner.cost.usd.Some? {
        merged := merged.(mode := Api);
      } else if winner.cost.apiEquivalent.Some? {
        merged := merged.(mode := Subscription);
      } else {
        merged := merged.(mode := existing.mode);
      }
    }
  }

  /** The body backfill, the tool names that go with it, and the derived completeness. */
  method MergeBodies(draft: Event, existing: Event, archived: Mask, incoming: Event) returns (merged: Event)
    requires draft.bodies == existing.bodies && draft.toolNames == existing.toolNames
    ensures merged == draft.(bodies := MergedBodies(existing, archived, incoming),
                             toolNames := if Present(existing, archived, Req) then existing.toolNames
                                          else incoming.toolNames,
                             captureComplete := MergedComplete(existing, archived, incoming))
  {
    merged := draft;
    var fromExisting, fromIncoming := false, false;
    if existing.Empty(Req) && Req !in archived {
      merged := merged.(bodies := Assign(merged.bodies, Req, incoming.bodies), toolNames := incoming.toolNames);
      if !incoming.Empty(Req) {
        fromIncoming := true;
      }
    } else {
      fromExisting := true;
    }
    if existing.Empty(Resp) && Resp !in archived {
      merged := merged.(bodies := Assign(merged.bodies, Resp, incoming.bodies));
      if !incoming.Empty(Resp) {
        fromIncoming := true;
      }
    } else {
      fromExisting := true;
    }
    var complete := CaptureCompleteFromBodies(existing.captureComplete, incoming.captureComplete,
                                              fromExisting, fromIncoming);
    merged := merged.(captureComplete := complete);
    if existing.Empty(Transcript) && Transcript !in archived {
      merged := merged.(bodies := Assign(merged.bodies, Transcript, incoming.bodies));
    }
    BodiesByColumn(existing, archived, incoming);
  }

  /** One column of the backfill. */
  function Backfill(to: map<Col, Bytes>, c: Col, existing: Event, archived: Mask, incoming: Event): map<Col, Bytes> {
    if Present(existing, archived, c) then to else Assign(to, c, incoming.bodies)
  }

  lemma BodiesByColumn(existing: Event, archived: Mask, incoming: Event)
    ensures Backfill(Backfill(Backfill(existing.bodies, Req, existing, archived, incoming),
                              Resp, existing, archived, incoming),
                     Transcript, existing, archived, incoming) == MergedBodies(existing, archived, incoming)
  {
    var a := Backfill(existing.bodies, Req, existing, archived, incoming);
    var b := Backfill(a, Resp, existing, archived, incoming);
    var m := Backfill(b, Transcript, existing, archived, incoming);
    var merged := MergedBodies(existing, archived, incoming);
    forall c: Col
      ensures c in m <==> c in merged
      ensures c in m ==> m[c] == merged[c]
    {
      match c case Req => case Resp => case Transcript =>
    }
  }

  /** `to.c = from.c`, NULL included. */
  function Assign(to: map<Col, Bytes>, c: Col, from: map<Col, Bytes>): map<Col, Bytes> {
    if c in from then to[c := from[c]] else to - {c}
  }
}
