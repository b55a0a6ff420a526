/**
 The judgement of a scored run. A run is clean when nothing excludes it, nothing was charged and the
 green criteria hold; what that says about the run's own rows and pipeline is worked out here.
 */
module Judgement {
  import opened Common
  import opened Sorting
  import M = TopologyMatch
  import P = TopologyProjection
  import O = OptionValues
  import opened Exclusion
  import opened ToolEvents
  import opened PathScore

  datatype Score = Score(facts: Facts, deviations: seq<Deviation>, excluded: Option<Kind>, tally: Tally,
                         appliedAny: bool, attemptedAny: bool, schemaBefore: Option<bool>)

  /**
   The pre-registered scenario: the expected pipeline and options, the fewest calls it takes, and the
   green criteria.
   */
  datatype Scenario = Scenario(expected: M.Topology, assertions: seq<O.Assertion>, floor: nat, wantValid: bool,
                               wantTopology: bool, wantSchema: bool)

  datatype Verdict = Verdict(deviations: seq<Deviation>, green: bool, red: bool, clean: bool, optimal: bool,
                             excess: nat, belowFloor: bool)

  // ---- The ledger ----

  function ClassName(cls: Class): string {
    match cls
    case ExcessDiscovery => "excess_discovery"
    case ApprovalPending => "approval_pending"
    case DataSetupDetour => "data_setup_detour"
    case DataRework => "data_rework"
    case Repair => "repair"
    case Backtrack => "backtrack"
    case SchemaFumble => "schema_fumble"
    case AbandonedMutation => "abandoned_mutation"
    case RetriedProviderError => "retried_provider_error"
    case MalformedOutput => "malformed_output"
    case TurnExhaustion => "turn_exhaustion"
    case WallTimeout => "wall_timeout"
    case Passivity => "passivity"
    case Decline => "decline"
    case WrongShape => "wrong_shape"
    case UnattributedExcess => "unattributed_excess"
  }

  /** Deviations sort by their span and then by the name of their class. */
  predicate LedgerLe(a: Deviation, b: Deviation) {
    if a.first != b.first then a.first < b.first
    else if a.last != b.last then a.last < b.last
    else StringLe(ClassName(a.cls), ClassName(b.cls))
  }

  lemma {:induction false} LedgerOrder()
    ensures Preorder(LedgerLe)
  {
    StringOrder();
    forall a, b ensures LedgerLe(a, b) || LedgerLe(b, a) {
      assert StringLe(ClassName(a.cls), ClassName(b.cls)) || StringLe(ClassName(b.cls), ClassName(a.cls));
    }
    forall a, b, c | LedgerLe(a, b) && LedgerLe(b, c) ensures LedgerLe(a, c) {
      LedgerTransitive(ClassName(a.cls), ClassName(b.cls), ClassName(c.cls));
    }
  }

  lemma {:induction false} LedgerTransitive(a: string, b: string, c: string)
    ensures StringLe(a, b) && StringLe(b, c) ==> StringLe(a, c)
  {
    StringOrder();
  }

  // ---- Scoring a path ----

  function Retries(calls: seq<LlmCall>): (r: seq<Deviation>)
    requires forall c :: c in calls ==> c.status.TransportFailed?
    ensures |r| == |calls|
  {
    seq(|calls|, i requires 0 <= i < |calls| =>
      var c := calls[i]; Deviation(RetriedProviderError, c.seqNo, c.seqNo, None, [c.status.name, c.errorClass]))
  }

  function Garbles(calls: seq<LlmCall>): (r: seq<Deviation>)
    requires forall c :: c in calls ==> c.status.MalformedReply?
    ensures |r| == |calls|
  {
    seq(|calls|, i requires 0 <= i < |calls| =>
      var c := calls[i]; Deviation(MalformedOutput, c.seqNo, c.seqNo, None, [c.status.name]))
  }

  function Terminal(facts: Facts): seq<Deviation> {
    if facts.isValid == Some(true) then []
    else match facts.budget
      case TurnBudget(name) => [Deviation(TurnExhaustion, 0, 0, None, [name, facts.reason])]
      case WallBudget => [Deviation(WallTimeout, 0, 0, None, [facts.reason])]
      case _ => []
  }

  predicate Attempted(steps: seq<Step>) {
    exists i :: 0 <= i < |steps| && steps[i].tool.Pipeline?
  }

  function Quiet(facts: Facts, attempted: bool): seq<Deviation> {
    if attempted || Terminal(facts) != [] then []
    else [Deviation(if facts.phraseHits != [] then Passivity else Decline, 0, 0, None, facts.phraseHits)]
  }

  function FirstLanded(steps: seq<Step>): Option<Step> {
    if steps == [] then None else if Landed(steps[0]) then Some(steps[0]) else FirstLanded(steps[1..])
  }

  /** Whether a schema was read in a row before the first applied pipeline mutation. */
  function SchemaBefore(steps: seq<Step>): Option<bool> {
    var first := FirstLanded(steps);
    if first.None? then None
    else Some(exists i :: 0 <= i < |steps| && steps[i].tool.Discovery? && steps[i].tool.schema
                          && steps[i].rowSeq < first.value.rowSeq)
  }

  /** The calls a run retried, and those with a garbled reply, as deviations. */
  function CallDeviations(calls: seq<LlmCall>): (r: seq<Deviation>)
    ensures r == [] <==> Retried(calls) == [] && Malformed(calls) == []
  {
    CallKinds(calls);
    Retries(Retried(calls)) + Garbles(Malformed(calls))
  }

  lemma {:induction false} CallKinds(calls: seq<LlmCall>)
    ensures forall c :: c in Retried(calls) ==> c.status.TransportFailed?
    ensures forall c :: c in Malformed(calls) ==> c.status.MalformedReply?
  {
    forall c | c in Retried(calls) ensures c.status.TransportFailed? {
      WhereMembers(calls, (c: LlmCall) => c.status.TransportFailed? && LaterSuccess(calls, c), c);
    }
    forall c | c in Malformed(calls) ensures c.status.MalformedReply? {
      WhereMembers(calls, (c: LlmCall) => c.status.MalformedReply?, c);
    }
  }

  /** Everything a run is charged with, before the ledger is sorted. */
  ghost function AllCharges(steps: seq<Step>, facts: Facts): seq<Deviation> {
    Charged(steps) + CallDeviations(facts.calls) + Terminal(facts) + Quiet(facts, Attempted(steps))
  }

  ghost predicate IsScore(steps: seq<Step>, facts: Facts, score: Score) {
    && score.facts == facts
    && IsTally(steps, |steps|, score.tally)
    && (score.appliedAny <==> LandedBefore(steps, |steps|))
    && (score.attemptedAny <==> Attempted(steps))
    && score.schemaBefore == SchemaBefore(steps)
    && score.deviations == Sort(AllCharges(steps, facts), LedgerLe)
    && score.excluded == Ladder(facts, score.tally.unknown)
  }

  method ScorePath(events: seq<Event>, classify: Call -> Tool, facts: Facts) returns (score: Score)
    ensures IsScore(StepsOf(events, classify), facts, score)
    ensures SortedBy(score.deviations, LedgerLe)
  {
    var steps := StepsOf(events, classify);
    var deviations, appliedAny, tally := ScoreSteps(steps);
    var attemptedAny := Attempted(steps);
    deviations := deviations + CallDeviations(facts.calls);
    deviations := deviations + Terminal(facts);
    var quiet: seq<Deviation> := [];
    if !appliedAny && !attemptedAny && Terminal(facts) == [] {
      quiet := [Deviation(if facts.phraseHits != [] then Passivity else Decline, 0, 0, None, facts.phraseHits)];
    }
    assert quiet == Quiet(facts, Attempted(steps));
    deviations := deviations + quiet;
    LedgerOrder();
    SortSorts(deviations, LedgerLe);
    score := Score(facts, Sort(deviations, LedgerLe), Ladder(facts, tally.unknown), tally, appliedAny, attemptedAny,
                   SchemaBefore(steps));
  }

  function StepsOf(events: seq<Event>, classify: Call -> Tool): (r: seq<Step>)
    ensures |r| == |events| && forall i :: 0 <= i < |r| ==> r[i] == ToStep(events[i], classify)
  {
    seq(|events|, i requires 0 <= i < |events| => ToStep(events[i], classify))
  }

  // ---- Judging ----

  /** The verdict, given whether the final pipeline has the wrong shape. */
  function Judge(scenario: Scenario, score: Score, wrongShape: bool): Verdict {
    var facts, calls := score.facts, |ToolBearing(score.facts.calls)|;
    var excess := if calls > scenario.floor then calls - scenario.floor else 0;
    var red := (facts.phraseHits != [] && !score.appliedAny) || facts.sentinelHits || StateEmpty(facts.state)
               || facts.isValid == Some(false);
    var green := && !(scenario.wantValid && facts.isValid != Some(true))
                 && !(scenario.wantTopology && (facts.isValid != Some(true) || wrongShape))
                 && !(scenario.wantSchema && score.schemaBefore == Some(false))
                 && score.tally.unknown == 0 && !red;
    var shape := if wrongShape then [Deviation(WrongShape, 0, 0, None, [])] else [];
    var surplus := if excess > 0 && score.deviations == []
                   then [Deviation(UnattributedExcess, 0, 0, None, ["excess=" + P.Decimal(excess)])] else [];
    var deviations := Sort(score.deviations + shape + surplus, LedgerLe);
    var clean := score.excluded == None && deviations == [] && green && facts.isValid == Some(true);
    Verdict(deviations, green, red, clean, clean && calls == scenario.floor, excess, 0 < calls < scenario.floor)
  }

  /** The state's graph is the expected one and its options, which can be read, are as asserted. */
  ghost predicate HasShape(scenario: Scenario, state: P.Doc) {
    && (exists t :: P.IsProjection(state, t) && M.Matches(scenario.expected, t))
    && O.Readable(state.nodes) && forall a :: a in scenario.assertions ==> O.Holds(state.nodes, a)
  }

  /** Only a valid state is compared. */
  predicate Compared(facts: Facts) { facts.isValid == Some(true) && facts.state.Some? }

  ghost predicate ShapeIsWrong(scenario: Scenario, facts: Facts) {
    Compared(facts) && !HasShape(scenario, facts.state.value)
  }

  /** A state whose options cannot be read ends the judgement with an exception. */
  method JudgePath(scenario: Scenario, score: Score) returns (v: Option<Verdict>)
    ensures v.None? <==> Compared(score.facts) && !O.Readable(score.facts.state.value.nodes)
    ensures v.Some? ==> v.value == Judge(scenario, score, ShapeIsWrong(scenario, score.facts))
  {
    var wrongShape := false;
    if Compared(score.facts) {
      var state := score.facts.state.value;
      var t := P.TopologyFromPipeline(state);
      var options := O.ObservedOptionValues(state.nodes);
      if options.None? {
        return None;
      }
      var match_ := O.MatchWithOptions(scenario.expected, t, options.value, scenario.assertions);
      M.WrappedInRange(t);
      wrongShape := match_ != Some(M.Match);
      forall u | P.IsProjection(state, u) ensures u == t { P.ProjectionUnique(state, u, state, t); }
      forall a { O.HoldsIff(state.nodes, options.value, a); }
    }
    v := Some(Judge(scenario, score, wrongShape));
  }

  /** How the author named things does not matter to the shape. */
  lemma {:induction false} RenamedShape(scenario: Scenario, state: P.Doc, r: string -> string)
    requires P.Admissible(state, r)
    ensures HasShape(scenario, P.Rename(state, r)) <==> HasShape(scenario, state)
  {
    forall t { P.RenamingInvariance(state, r, t); }
    O.SameOptionsHold(state.nodes, P.Rename(state, r).nodes);
  }

  lemma {:induction false} ReorderedHasShape(scenario: Scenario, state: P.Doc, other: P.Doc, p: seq<nat>, q: seq<nat>)
    requires P.Reordered(state, other, p, q) && P.UniqueNames(state) && M.NoEmptyPlugin(scenario.expected)
    requires O.OrderFree(state.nodes, scenario.assertions) && HasShape(scenario, state)
    ensures HasShape(scenario, other)
  {
    var t :| P.IsProjection(state, t) && M.Matches(scenario.expected, t);
    var u := P.ReorderedProjection(state, other, p, q, t);
    P.ReorderedCorrespondence(state, other, p, q, t, u);
    var f :| M.Corresponds(scenario.expected, t, f);
    M.ComposedCorrespondence(scenario.expected, t, u, f, P.Renumbering(p, q));
    M.MatchesIsIsomorphism(scenario.expected, u);
    ReorderedOptions(scenario, state.nodes, other.nodes, p);
  }

  lemma {:induction false} ReorderedOptions(
    scenario: Scenario, nodes: seq<P.NodeSpec>, others: seq<P.NodeSpec>, p: seq<nat>)
    requires O.Permuted(nodes, others, p) && O.OrderFree(nodes, scenario.assertions)
    requires forall a :: a in scenario.assertions ==> O.Holds(nodes, a)
    ensures O.OrderFree(others, scenario.assertions) && O.Readable(others)
    ensures forall a :: a in scenario.assertions ==> O.Holds(others, a)
  {
    forall a | a in scenario.assertions ensures O.Agreed(others, a.key, a.name) && O.Holds(others, a) {
      O.OrderOfOptions(nodes, others, p, a);
      assert a in [a];
    }
    forall key ensures O.ReadableUnder(others, key) { }
  }

  lemma {:induction false} PermutedOrderFree(
    nodes: seq<P.NodeSpec>, others: seq<P.NodeSpec>, p: seq<nat>, assertions: seq<O.Assertion>)
    requires O.Permuted(nodes, others, p) && O.OrderFree(nodes, assertions)
    ensures O.OrderFree(others, assertions)
  {
    forall a | a in assertions ensures O.Agreed(others, a.key, a.name) { assert O.Agreed(nodes, a.key, a.name); }
  }

  /** Nor does their order, where the pipeline says nothing twice in different ways and no plugin is empty. */
  lemma {:induction false} ReorderedShape(scenario: Scenario, state: P.Doc, other: P.Doc, p: seq<nat>, q: seq<nat>)
    requires P.Reordered(state, other, p, q) && P.UniqueNames(state) && M.NoEmptyPlugin(scenario.expected)
    requires O.OrderFree(state.nodes, scenario.assertions)
    ensures HasShape(scenario, state) <==> HasShape(scenario, other)
  {
    if HasShape(scenario, state) { ReorderedHasShape(scenario, state, other, p, q); }
    if HasShape(scenario, other) {
      P.ReorderedBack(state, other, p, q);
      PermutedOrderFree(state.nodes, other.nodes, p, scenario.assertions);
      ReorderedHasShape(scenario, other, state, M.InverseOf(p, |p|), M.InverseOf(q, |q|));
    }
  }

  // ---- What a clean verdict says ----

  /** No event is charged, by definition of the charges. */
  ghost predicate Spotless(steps: seq<Step>, i: nat)
    requires i < |steps|
  {
    var s := steps[i];
    && !ReadBefore(steps, i)
    && !s.tool.CreateBlob? && !s.tool.EditBlob?
    && (s.tool.Pipeline? ==> s.outcome == Applied)
    && (s.tool.WireBlob? ==> s.outcome == Applied || NotApplied(s))
    && (s.tool.Pipeline? && s.tool.edit.Removal? ==> !LandedBefore(steps, i))
    && (s.tool.Pipeline? && !s.tool.edit.Removal? && !s.tool.edit.OtherEdit? ==> !EditBefore(steps, i, s.tool.edit))
  }

  ghost predicate AllSpotless(steps: seq<Step>) {
    forall i :: 0 <= i < |steps| ==> Spotless(steps, i)
  }

  /** What has to be absent from the calls for nothing to be charged to them. */
  ghost predicate QuietCalls(calls: seq<LlmCall>) {
    forall c :: c in calls ==> !c.status.MalformedReply? && !(c.status.TransportFailed? && LaterSuccess(calls, c))
  }

  /** The conditions for a clean run, in terms of its events and facts. */
  ghost predicate CleanRun(steps: seq<Step>, facts: Facts, scenario: Scenario) {
    && ReadCleanly(facts) && Looped(facts) && Recovered(facts) && facts.isValid == Some(true)
    && !StateEmpty(facts.state) && HasShape(scenario, facts.state.value) && !facts.sentinelHits
    && QuietCalls(facts.calls)
    && |ToolBearing(facts.calls)| <= scenario.floor
    && LandedBefore(steps, |steps|)
    && (scenario.wantSchema ==> SchemaBefore(steps) == Some(true))
    && AllSpotless(steps)
  }

  lemma {:induction false} FlatEmpty(charges: nat -> seq<Deviation>, n: nat)
    ensures Flat(charges, n) == [] <==> forall i: nat :: i < n ==> charges(i) == []
  {
    if n > 0 { FlatEmpty(charges, n - 1); }
  }

  lemma {:induction false} CountZero(steps: seq<Step>, n: nat, p: Step -> bool)
    requires n <= |steps|
    ensures Count(steps, n, p) == 0 <==> forall i :: 0 <= i < n ==> !p(steps[i])
  {
    if n > 0 { CountZero(steps, n - 1, p); }
  }

  ghost predicate Uncharged(steps: seq<Step>) {
    && (forall i: nat :: i < |steps| ==> Charges(steps)(i) == [])
    && !Open(steps, |steps|)
  }

  lemma {:induction false} ChargedNothing(steps: seq<Step>)
    ensures Charged(steps) == [] <==> Uncharged(steps)
  {
    FlatEmpty(Charges(steps), |steps|);
    assert Charged(steps) == [] <==> Flat(Charges(steps), |steps|) == [] && Abandoned(steps) == [];
  }

  /** Every pipeline mutation of the timeline was decided, and none refused. */
  ghost predicate AllDecided(steps: seq<Step>) {
    forall i :: 0 <= i < |steps| ==> !Unapplied(steps[i]) && !(Undecided(steps[i]) && !steps[i].parked)
  }

  lemma {:induction false} UnchargedDecides(steps: seq<Step>, tally: Tally)
    requires IsTally(steps, |steps|, tally) && Uncharged(steps)
    ensures tally.unknown == 0 <==> AllDecided(steps)
  {
    ChargedNothing(steps);
    RepairedOrAbandoned(steps);
    CountZero(steps, |steps|, (s: Step) => Unapplied(s));
    CountZero(steps, |steps|, (s: Step) => Undecided(s) && !s.parked);
  }

  lemma {:induction false} SpotlessAt(steps: seq<Step>, i: nat)
    requires i < |steps| && AllDecided(steps)
    ensures ChargedAt(steps, i) == [] <==> Spotless(steps, i)
  {
    assert !Open(steps, i);
  }

  lemma {:induction false} SpotlessDecides(steps: seq<Step>)
    requires AllSpotless(steps)
    ensures AllDecided(steps) && Uncharged(steps)
  {
    forall i | 0 <= i < |steps| ensures !Unapplied(steps[i]) && !(Undecided(steps[i]) && !steps[i].parked) {
      assert Spotless(steps, i);
    }
    forall i: nat | i < |steps| ensures Charges(steps)(i) == [] {
      SpotlessAt(steps, i);
    }
  }

  /** Nothing charged and nothing undecided, exactly when every event is spotless. */
  lemma {:induction false} SpotlessIff(steps: seq<Step>, tally: Tally)
    requires IsTally(steps, |steps|, tally)
    ensures Charged(steps) == [] && tally.unknown == 0 <==> AllSpotless(steps)
  {
    ChargedNothing(steps);
    if Uncharged(steps) {
      UnchargedDecides(steps, tally);
      if tally.unknown == 0 {
        forall i | 0 <= i < |steps| ensures Spotless(steps, i) {
          SpotlessAt(steps, i);
          assert Charges(steps)(i) == ChargedAt(steps, i);
        }
      }
    }
    if AllSpotless(steps) {
      SpotlessDecides(steps);
      UnchargedDecides(steps, tally);
    }
  }

  lemma {:induction false} FirstLandedExists(steps: seq<Step>)
    ensures FirstLanded(steps).Some? <==> LandedBefore(steps, |steps|)
  {
    if steps != [] {
      FirstLandedExists(steps[1..]);
      if LandedBefore(steps, |steps|) {
        var j :| 0 <= j < |steps| && Landed(steps[j]);
        assert j == 0 || steps[1..][j - 1] == steps[j];
      }
      if LandedBefore(steps[1..], |steps| - 1) {
        var j :| 0 <= j < |steps| - 1 && Landed(steps[1..][j]);
        assert steps[j + 1] == steps[1..][j];
      }
    }
  }

  /** With every event spotless, a mutation was attempted exactly when one was applied. */
  lemma {:induction false} AttemptedLanded(steps: seq<Step>)
    requires AllSpotless(steps)
    ensures Attempted(steps) <==> LandedBefore(steps, |steps|)
  {
    if Attempted(steps) {
      var i :| 0 <= i < |steps| && steps[i].tool.Pipeline?;
      assert Spotless(steps, i) && Landed(steps[i]);
    }
  }

  lemma {:induction false} LedgerEmpty(ds: seq<Deviation>)
    ensures Sort(ds, LedgerLe) == [] <==> ds == []
  {
    SortKeepsElements(ds, LedgerLe);
  }

  lemma {:induction false} DeviationParts(steps: seq<Step>, facts: Facts)
    ensures AllCharges(steps, facts) == [] <==>
            && Charged(steps) == [] && Retried(facts.calls) == [] && Malformed(facts.calls) == []
            && Terminal(facts) == [] && Attempted(steps)
  {
    var a, b, c, d := Charged(steps), CallDeviations(facts.calls), Terminal(facts), Quiet(facts, Attempted(steps));
    assert |a + b + c + d| == |a| + |b| + |c| + |d|;
  }

  lemma {:induction false} QuietCallsIff(calls: seq<LlmCall>)
    ensures Retried(calls) == [] && Malformed(calls) == [] <==> QuietCalls(calls)
  {
    WhereEmpty(calls, (c: LlmCall) => c.status.TransportFailed? && LaterSuccess(calls, c));
    WhereEmpty(calls, (c: LlmCall) => c.status.MalformedReply?);
  }

  /** The ledger of a valid run stays empty exactly when its events are spotless and its calls quiet. */
  lemma {:induction false} EmptyLedgerIff(steps: seq<Step>, facts: Facts, score: Score)
    requires IsScore(steps, facts, score) && facts.isValid == Some(true)
    ensures score.deviations == [] && score.tally.unknown == 0 <==>
            && AllSpotless(steps)
            && LandedBefore(steps, |steps|) && QuietCalls(facts.calls)
  {
    LedgerEmpty(AllCharges(steps, facts));
    DeviationParts(steps, facts);
    QuietCallsIff(facts.calls);
    SpotlessIff(steps, score.tally);
    if AllSpotless(steps) { AttemptedLanded(steps); }
  }

  /** A verdict is clean when nothing excludes or charges the run, it fits the floor and the criteria hold. */
  lemma {:induction false} CleanParts(scenario: Scenario, score: Score, wrongShape: bool)
    ensures Judge(scenario, score, wrongShape).clean <==>
            && score.excluded == None && score.deviations == [] && !wrongShape && score.facts.isValid == Some(true)
            && |ToolBearing(score.facts.calls)| <= scenario.floor && score.tally.unknown == 0
            && (scenario.wantSchema ==> score.schemaBefore != Some(false))
            && !Judge(scenario, score, wrongShape).red
  {
    var calls := |ToolBearing(score.facts.calls)|;
    var excess := if calls > scenario.floor then calls - scenario.floor else 0;
    var shape := if wrongShape then [Deviation(WrongShape, 0, 0, None, [])] else [];
    var surplus := if excess > 0 && score.deviations == []
                   then [Deviation(UnattributedExcess, 0, 0, None, ["excess=" + P.Decimal(excess)])] else [];
    LedgerEmpty(score.deviations + shape + surplus);
    assert |score.deviations + shape + surplus| == |score.deviations| + |shape| + |surplus|;
  }

  /** The verdict is clean exactly when the run's events, calls and final pipeline meet the conditions. */
  lemma {:induction false} CleanIff(steps: seq<Step>, facts: Facts, score: Score, scenario: Scenario)
    requires IsScore(steps, facts, score)
    ensures Judge(scenario, score, ShapeIsWrong(scenario, facts)).clean <==> CleanRun(steps, facts, scenario)
  {
    CleanParts(scenario, score, ShapeIsWrong(scenario, facts));
    MeasuredIff(facts, score.tally.unknown);
    FirstLandedExists(steps);
    if facts.isValid == Some(true) { EmptyLedgerIff(steps, facts, score); }
  }

  /** A clean run is green, and optimal exactly when it is not below the floor; what makes a run red. */
  lemma {:induction false} OptimalIff(steps: seq<Step>, facts: Facts, score: Score, scenario: Scenario)
    requires IsScore(steps, facts, score)
    ensures var v := Judge(scenario, score, ShapeIsWrong(scenario, facts));
            && (v.optimal <==> CleanRun(steps, facts, scenario) && !v.belowFloor)
            && (v.clean ==> v.green && v.excess == 0) && (v.green ==> !v.red)
            && (v.red <==> || (facts.phraseHits != [] && !LandedBefore(steps, |steps|)) || facts.sentinelHits
                           || StateEmpty(facts.state) || facts.isValid == Some(false))
  {
    CleanIff(steps, facts, score, scenario);
    WhereEmpty(facts.calls, (c: LlmCall) => c.status == Succeeded && c.tools);
  }

  /** A clean run holds an applied mutation, and a refused one only among the bindings of a blob. */
  lemma {:induction false} CleanMutations(steps: seq<Step>, facts: Facts, scenario: Scenario)
    requires CleanRun(steps, facts, scenario)
    ensures exists i :: 0 <= i < |steps| && Landed(steps[i])
    ensures forall i :: 0 <= i < |steps| && IsMutation(steps[i]) ==>
              steps[i].outcome == Applied || (steps[i].tool.WireBlob? && NotApplied(steps[i]))
    ensures (forall i :: 0 <= i < |steps| && IsMutation(steps[i]) ==> steps[i].outcome == Applied) <==>
            (forall i :: 0 <= i < |steps| && steps[i].tool.WireBlob? ==> !NotApplied(steps[i]))
    ensures 1 <= |ToolBearing(facts.calls)| <= scenario.floor
  {
    WhereEmpty(facts.calls, (c: LlmCall) => c.status == Succeeded && c.tools);
    forall i | 0 <= i < |steps| && IsMutation(steps[i])
      ensures steps[i].outcome == Applied || (steps[i].tool.WireBlob? && NotApplied(steps[i]))
    {
      assert Spotless(steps, i);
    }
  }

  // ---- A whole run ----

  /** From the captured messages to the verdict, with the timeline and the score it rests on. */
  method ScoreRun(turns: seq<Turn>, rows: seq<Row>, classify: Call -> Tool, facts: Facts, scenario: Scenario)
    returns (v: Option<Verdict>, score: Score, events: seq<Event>)
    ensures IsTimeline(events, TurnCalls(turns), turns, rows, CallSeqs(ToolBearing(facts.calls)))
    ensures IsScore(StepsOf(events, classify), facts, score)
    ensures v.None? <==> Compared(facts) && !O.Readable(facts.state.value.nodes)
    ensures v.Some? ==> v.value == Judge(scenario, score, ShapeIsWrong(scenario, facts))
    ensures v.Some? && v.value.clean <==> CleanRun(StepsOf(events, classify), facts, scenario)
  {
    events := Events(turns, rows, CallSeqs(ToolBearing(facts.calls)));
    score := ScorePath(events, classify, facts);
    v := JudgePath(scenario, score);
    CleanIff(StepsOf(events, classify), facts, score, scenario);
  }

  function CallSeqs(calls: seq<LlmCall>): seq<int> {
    seq(|calls|, i requires 0 <= i < |calls| => calls[i].seqNo)
  }

  /** Some row can only be this call's, and shows its mutation applied. */
  ghost predicate AppliedInRow(turns: seq<Turn>, rows: seq<Row>, turn: Turn, call: Call) {
    exists row :: row in rows && ShowsApplied(row) && Grounds(row, turns, rows, turn, call)
  }

  /** Some row can only be this call's, and reports its refusal. */
  ghost predicate RefusedInRow(turns: seq<Turn>, rows: seq<Row>, turn: Turn, call: Call) {
    exists row, outcome :: row in rows && Refuses(row, outcome) && Grounds(row, turns, rows, turn, call)
  }

  /**
   A clean verdict rests on the capture: some call of a pipeline mutation has a row of its own that shows
   it applied, every other call of one does too, and a call of another mutation has such a row or, when it
   binds a blob, a row of its own that reports its refusal.
   */
  lemma {:induction false} CleanRunIsGrounded(
    turns: seq<Turn>, rows: seq<Row>, events: seq<Event>, classify: Call -> Tool, facts: Facts, scenario: Scenario)
    requires IsTimeline(events, TurnCalls(turns), turns, rows, CallSeqs(ToolBearing(facts.calls)))
    requires CleanRun(StepsOf(events, classify), facts, scenario)
    ensures exists i :: 0 <= i < |events| && classify(TurnCalls(turns)[i].1).Pipeline?
    ensures forall i :: 0 <= i < |events| ==>
              var turn, call := TurnCalls(turns)[i].0, TurnCalls(turns)[i].1;
              var tool := classify(call);
              && !tool.CreateBlob? && !tool.EditBlob?
              && (tool.Pipeline? ==> AppliedInRow(turns, rows, turn, call))
              && (tool.WireBlob? ==> AppliedInRow(turns, rows, turn, call) || RefusedInRow(turns, rows, turn, call))
  {
    var steps, seqs := StepsOf(events, classify), CallSeqs(ToolBearing(facts.calls));
    var j :| 0 <= j < |steps| && Landed(steps[j]);
    forall i | 0 <= i < |events|
      ensures var turn, call := TurnCalls(turns)[i].0, TurnCalls(turns)[i].1;
              var tool := classify(call);
              && (i == j ==> tool.Pipeline?)
              && !tool.CreateBlob? && !tool.EditBlob?
              && (tool.Pipeline? ==> AppliedInRow(turns, rows, turn, call))
              && (tool.WireBlob? ==> AppliedInRow(turns, rows, turn, call) || RefusedInRow(turns, rows, turn, call))
    {
      assert Spotless(steps, i);
      assert IsEvent(events[i], turns, rows, seqs, TurnCalls(turns)[i].0, TurnCalls(turns)[i].1);
      AppliedIffGrounded(events, turns, rows, seqs, i);
      RefusedIffGrounded(events, turns, rows, seqs, i, Rejected);
      RefusedIffGrounded(events, turns, rows, seqs, i, Failed);
      RefusedIffGrounded(events, turns, rows, seqs, i, Cancelled);
    }
  }

  // ---- A refused mutation in a clean run ----

  const SCHEMA_CALL := Call("1", "get_plugin_schema", "")
  const EDIT_CALL := Call("2", "set_pipeline", "")
  const BIND_CALL := Call("3", "wire_blob_inline_ref", "")

  const BINDING_TURN := Turn(2, "m", [SCHEMA_CALL, EDIT_CALL, BIND_CALL])

  /** A schema is read, then a pipeline is set, then a binding is rejected. */
  function BindingRows(): seq<Row> {
    [Row(3, "1", None, None, Some("m"), false),
     Row(4, "2", None, None, Some("m"), true),
     Row(5, "3", Some(Content(false, false, Some(false), false, [])), None, Some("m"), false)]
  }

  function BindingEvents(): seq<Event> {
    [Event(2, 3, SCHEMA_CALL, Completed, None, 1),
     Event(2, 4, EDIT_CALL, Applied, None, 1),
     Event(2, 5, BIND_CALL, Rejected, BindingRows()[2].content, 1)]
  }

  function ByName(call: Call): Tool {
    match call.name
    case "get_plugin_schema" => Discovery("csv", true)
    case "set_pipeline" => Pipeline(SetPipeline)
    case "wire_blob_inline_ref" => WireBlob
    case _ => Untracked
  }

  /** The pipeline that was set: a source wired to an output. */
  function BindingFacts(): Facts {
    Facts([LlmCall(1, Succeeded, "", true, false)], Instrument(false, false, false, false, false), false, Some(200),
          false, "", NoBudget, Some(true), Some(P.Wire("x", Some("x"))), [], false)
  }

  ghost function BindingScenario(): Scenario {
    Scenario(P.WireGraph("x", Some("x")), [], 1, true, true, true)
  }

  lemma {:induction false} BindingTimeline()
    ensures IsTimeline(BindingEvents(), TurnCalls([BINDING_TURN]), [BINDING_TURN], BindingRows(), [1])
  {
    assert CallsBefore([BINDING_TURN], 0) == [];
    assert TurnCalls([BINDING_TURN]) == CallsOf(BINDING_TURN, BINDING_TURN.calls);
    forall i | 0 <= i < 3
      ensures IsEvent(BindingEvents()[i], [BINDING_TURN], BindingRows(), [1], BINDING_TURN, BINDING_TURN.calls[i])
    {
      BindingEvent(i);
    }
  }

  lemma {:induction false} BindingEvent(i: nat)
    requires i < 3
    ensures IsEvent(BindingEvents()[i], [BINDING_TURN], BindingRows(), [1], BINDING_TURN, BINDING_TURN.calls[i])
  {
    var rows, call := BindingRows(), BINDING_TURN.calls[i];
    BindingCounts(i);
    OnlyRow(rows, call.id);
    assert rows[i] in rows && Grounds(rows[i], [BINDING_TURN], rows, BINDING_TURN, call);
    assert UpTo([1], 2) == 1 by { assert [1][1..] == []; }
  }

  lemma {:induction false} BindingCounts(i: nat)
    requires i < 3
    ensures CountCalls([BINDING_TURN], BINDING_TURN.calls[i].id) == 1
    ensures CountRows(BindingRows(), BINDING_TURN.calls[i].id) == 1
  {
    var rows, calls, id := BindingRows(), BINDING_TURN.calls, BINDING_TURN.calls[i].id;
    assert rows[1..] == [rows[1], rows[2]] && rows[1..][1..] == [rows[2]] && rows[1..][1..][1..] == [];
    assert calls[1..] == [calls[1], calls[2]] && calls[1..][1..] == [calls[2]] && calls[1..][1..][1..] == [];
    assert CountIn([calls[2]], id) == if i == 2 then 1 else 0;
    assert CountIn([calls[1], calls[2]], id) == if i >= 1 then 1 else 0;
    assert CountRows([rows[2]], id) == if i == 2 then 1 else 0;
    assert CountRows([rows[1], rows[2]], id) == if i >= 1 then 1 else 0;
    assert [BINDING_TURN][1..] == [];
  }

  lemma {:induction false} BindingShape()
    ensures HasShape(BindingScenario(), P.Wire("x", Some("x")))
  {
    var graph := P.WireGraph("x", Some("x"));
    P.WireProjects("x", Some("x"));
    P.ProjectionInRange(P.Wire("x", Some("x")), graph);
    M.MatchesReflexive(graph);
  }

  /** A capture whose run is clean, under all criteria, though its last mutation was rejected. */
  lemma {:induction false} RejectedBindingIsClean()
    ensures IsTimeline(BindingEvents(), TurnCalls([BINDING_TURN]), [BINDING_TURN], BindingRows(),
                       CallSeqs(ToolBearing(BindingFacts().calls)))
    ensures CleanRun(StepsOf(BindingEvents(), ByName), BindingFacts(), BindingScenario())
    ensures var last := StepsOf(BindingEvents(), ByName)[2]; IsMutation(last) && NotApplied(last)
  {
    BindingTimeline();
    BindingShape();
    BindingSteps();
    BindingClean(StepsOf(BindingEvents(), ByName), BindingScenario());
  }

  /** The calls and the state of that run are clean whatever else it did cleanly. */
  lemma {:induction false} BindingClean(steps: seq<Step>, scenario: Scenario)
    requires scenario.floor == 1 && HasShape(scenario, P.Wire("x", Some("x")))
    requires LandedBefore(steps, |steps|) && SchemaBefore(steps) == Some(true) && AllSpotless(steps)
    ensures CleanRun(steps, BindingFacts(), scenario)
    ensures CallSeqs(ToolBearing(BindingFacts().calls)) == [1]
  {
    var facts := BindingFacts();
    OneToolBearing(facts.calls[0]);
    assert facts.calls == [facts.calls[0]] && facts.calls[0] in facts.calls;
    assert CallSeqs([facts.calls[0]]) == [1];
  }

  lemma {:induction false} BindingSteps()
    ensures var steps := StepsOf(BindingEvents(), ByName);
            && LandedBefore(steps, |steps|) && SchemaBefore(steps) == Some(true)
            && AllSpotless(steps)
            && IsMutation(steps[2]) && NotApplied(steps[2])
  {
    var steps := StepsOf(BindingEvents(), ByName);
    assert steps[0].tool == Discovery("csv", true) && Landed(steps[1]) && steps[2].tool == WireBlob;
    assert steps[1..][0] == steps[1] && FirstLanded(steps) == Some(steps[1]);
    forall i | 0 <= i < |steps| ensures Spotless(steps, i) { }
  }

  lemma {:induction false} OneToolBearing(c: LlmCall)
    requires c.status == Succeeded && c.tools
    ensures ToolBearing([c]) == [c]
  {
    var keep := (c: LlmCall) => c.status == Succeeded && c.tools;
    assert Where([c], keep) == [c] + Where([c][1..], keep);
    assert [c][1..] == [];
  }
}
