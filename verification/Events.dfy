/** The `events` row, grouped by the rule a merge applies to each column. */
module Events {
  import opened Prelude

  /** The three archivable body columns. A mask is the set of columns it names. */
  datatype Col = Req | Resp | Transcript

  type Mask = set<Col>

  datatype Source = NoSource | Proxy | Jsonl | OtherSource(name: string)

  /** NoMode is the empty billing_mode of a credential the proxy could not classify. */
  datatype BillingMode = NoMode | Api | Subscription | Local | OtherMode(name: string)

  datatype Account = NoAccount | LocalAccount | Named(name: string)

  /** cost_source labels, split the way repriceInScope tells them apart. */
  datatype CostSource =
    | NoCostSource
    | Unpriced
    | CacheTtlUnknown
    | ApproximateOther(reason: string)
    | Labelled(text: string)

  datatype Tokens = Tokens(input: int, output: int, cacheWrite5m: int, cacheWrite1h: int,
                           cacheRead: int, thinking: int)
  {
    /** Was any count ever measured? All-zero means the response body was never parsed. */
    predicate Observed() {
      input != 0 || output != 0 || cacheWrite5m != 0 || cacheWrite1h != 0 || cacheRead != 0 || thinking != 0
    }

    function PromptTotal(): int {
      input + cacheWrite5m + cacheWrite1h + cacheRead
    }
  }

  const ZERO_TOKENS := Tokens(0, 0, 0, 0, 0, 0)

  /** Columns a merge takes, all together, from the winning side. */
  datatype Measured = Measured(tokens: Tokens, stopReason: string, stopCategory: string,
                               serviceTier: string, speed: string, modelResolved: string)

  datatype Cost = Cost(usd: Option<real>, apiEquivalent: Option<real>, source: CostSource)

  const NO_COST := Cost(None, None, Unpriced)

  /** Columns a merge never rewrites. */
  datatype Fixed = Fixed(requestId: string, source: Source, firstSource: Source,
                         startedAt: int, endedAt: Option<int>, sessionId: string,
                         modelRequested: string, effort: string, inferenceGeo: string)

  /** Columns a merge backfills only where the stored row has nothing. */
  datatype Carried = Carried(authKind: string, clientVersion: string, project: string, gitBranch: string,
                             cliEntrypoint: string, isSidechain: bool, httpMethod: string, path: string,
                             status: int, reqHeaders: string, respHeaders: string,
                             prefixHash: Option<string>, replayOf: string, replayEdits: string,
                             transcriptRole: string)

  datatype Event = Event(fixed: Fixed, sourceRefs: seq<Source>, measured: Measured, promptTotal: int,
                         cost: Cost, account: Account, mode: BillingMode, carried: Carried,
                         captureComplete: bool, toolNames: Option<string>, bodies: map<Col, Bytes>)
  {
    predicate Observed() {
      measured.tokens.Observed()
    }

    /** `len(col) == 0`: true of a NULL and of an empty blob alike. */
    predicate Empty(c: Col) {
      c !in bodies || |bodies[c]| == 0
    }

    /** Same row, other bodies. */
    function WithBodies(b: map<Col, Bytes>): Event {
      this.(bodies := b)
    }
  }
}
