/**
 Which captured runs are measured at all. A ladder of reasons excludes a run; some blame the harness,
 and three of those in a row abort a firing, the others are findings about the product.
 */
module Exclusion {
  import opened Common
  import opened TopologyProjection

  /** The server's own reason to end a run: one of the two turn budgets, by name, or the wall clock. */
  datatype Budget = NoBudget | TurnBudget(name: string) | WallBudget | OtherBudget

  datatype CallStatus = Succeeded | TransportFailed(name: string) | MalformedReply(name: string) | OtherReply

  /** An audited provider call; `tools` when it offered tools, `planner` when it belongs to the planner. */
  datatype LlmCall = LlmCall(seqNo: int, status: CallStatus, errorClass: string, tools: bool, planner: bool)

  /** What the driver recorded about its own reading of the run. */
  datatype Instrument = Instrument(truncated: bool, readFault: bool, httpFault: bool, authFailed: bool,
                                   reviewsExhausted: bool)

  /** What the scorer takes from the capture besides the tool events. */
  datatype Facts = Facts(calls: seq<LlmCall>, instrument: Instrument, plannerAttempts: bool, postStatus: Option<int>,
                         terminalSource: bool, reason: string, budget: Budget, isValid: Option<bool>,
                         state: Option<Doc>, phraseHits: seq<string>, sentinelHits: bool)

  /** There is no final pipeline, or nothing in it. */
  predicate StateEmpty(state: Option<Doc>) {
    state.None? || (state.value.sources == [] && state.value.source.None?
                    && state.value.nodes == [] && state.value.outputs == [])
  }

  /**
   Why a run is not measured: instrument kinds are faults of the harness, the others are findings.
   `Capture` is for a run whose capture cannot be read at all.
   */
  datatype Kind =
    | Capture | Truncated | ReadIntegrity | Auth | Http | Transport | TerminalMissing
    | Surface | NoCalls | ApprovalUnobservable

  predicate InstrumentKind(k: Kind) { !k.Surface? && !k.NoCalls? && !k.ApprovalUnobservable? }

  // ---- The provider calls ----

  function ToolBearing(calls: seq<LlmCall>): seq<LlmCall> {
    Where(calls, (c: LlmCall) => c.status == Succeeded && c.tools)
  }

  predicate LaterSuccess(calls: seq<LlmCall>, c: LlmCall) {
    exists d :: d in calls && d.status == Succeeded && d.seqNo > c.seqNo
  }

  function Retried(calls: seq<LlmCall>): seq<LlmCall> {
    Where(calls, (c: LlmCall) => c.status.TransportFailed? && LaterSuccess(calls, c))
  }

  function Unrecovered(calls: seq<LlmCall>): seq<LlmCall> {
    Where(calls, (c: LlmCall) => c.status.TransportFailed? && !LaterSuccess(calls, c))
  }

  function Malformed(calls: seq<LlmCall>): seq<LlmCall> {
    Where(calls, (c: LlmCall) => c.status.MalformedReply?)
  }

  datatype Surfaced = Undetermined | Planner | ComposeLoop

  function SurfaceOf(facts: Facts): Surfaced {
    if facts.calls == [] then Undetermined
    else if facts.plannerAttempts || exists c :: c in facts.calls && c.planner then Planner
    else ComposeLoop
  }

  // ---- Exclusion ----

  function InstrumentExclusion(facts: Facts): Option<Kind> {
    var i := facts.instrument;
    if i.truncated then Some(Truncated)
    else if i.readFault then Some(ReadIntegrity)
    else if i.authFailed || facts.postStatus == Some(401) || facts.postStatus == Some(403) then Some(Auth)
    else if i.httpFault || i.reviewsExhausted then Some(Http)
    else None
  }

  /** The ladder: the first reason counts. */
  function Ladder(facts: Facts, unknown: nat): Option<Kind> {
    var surface := SurfaceOf(facts);
    if InstrumentExclusion(facts).Some? then InstrumentExclusion(facts)
    else if surface == Undetermined && facts.postStatus != Some(200) then Some(TerminalMissing)
    else if surface != ComposeLoop then Some(Surface)
    else if Unrecovered(facts.calls) != [] && facts.budget == NoBudget then Some(Transport)
    else if ToolBearing(facts.calls) == [] then Some(NoCalls)
    else if facts.isValid != Some(true) && facts.postStatus != Some(200) && !facts.terminalSource then
      Some(TerminalMissing)
    else if unknown > 0 then Some(ApprovalUnobservable)
    else None
  }

  /** The driver got a clean read of the run. */
  ghost predicate ReadCleanly(facts: Facts) {
    && facts.instrument == Instrument(false, false, false, false, false)
    && facts.postStatus != Some(401) && facts.postStatus != Some(403)
  }

  /** Every transport failure was followed by a success, or a server budget ended the run. */
  ghost predicate Recovered(facts: Facts) {
    facts.budget != NoBudget ||
    forall c :: c in facts.calls && c.status.TransportFailed? ==>
      exists d :: d in facts.calls && d.status == Succeeded && d.seqNo > c.seqNo
  }

  /** The run took place in the compose loop, with at least one call that offered tools. */
  ghost predicate Looped(facts: Facts) {
    && !facts.plannerAttempts
    && (forall c :: c in facts.calls ==> !c.planner)
    && (exists c :: c in facts.calls && c.status == Succeeded && c.tools)
  }

  ghost predicate Ended(facts: Facts) {
    facts.isValid == Some(true) || facts.postStatus == Some(200) || facts.terminalSource
  }

  /** A run is measured exactly when it was read cleanly, looped, recovered, ended and is fully decided. */
  lemma {:induction false} MeasuredIff(facts: Facts, unknown: nat)
    ensures Ladder(facts, unknown) == None <==>
            ReadCleanly(facts) && Looped(facts) && Recovered(facts) && Ended(facts) && unknown == 0
  {
    WhereEmpty(facts.calls, (c: LlmCall) => c.status.TransportFailed? && !LaterSuccess(facts.calls, c));
    WhereEmpty(facts.calls, (c: LlmCall) => c.status == Succeeded && c.tools);
  }

  /** A run counts towards the abort rule exactly for a fault of the harness, never for a finding. */
  lemma {:induction false} InstrumentIff(facts: Facts, unknown: nat)
    ensures (Ladder(facts, unknown).Some? && InstrumentKind(Ladder(facts, unknown).value)) <==>
            || !ReadCleanly(facts)
            || (facts.calls == [] && facts.postStatus != Some(200))
            || (SurfaceOf(facts) == ComposeLoop && !Recovered(facts))
            || (Looped(facts) && !Ended(facts))
  {
    WhereEmpty(facts.calls, (c: LlmCall) => c.status.TransportFailed? && !LaterSuccess(facts.calls, c));
    WhereEmpty(facts.calls, (c: LlmCall) => c.status == Succeeded && c.tools);
  }
}
