/**
 From a capture to its tool events. Tool rows are classified one by one; calls are then paired with
 their rows. An event counts as applied only on evidence no other call or row can share.
 */
module ToolEvents {
  import opened Common

  datatype Outcome = Applied | Rejected | Failed | Cancelled | Completed | Unknown

  datatype Status = Success | ArgError | PluginCrash | CancelledStatus | OtherStatus

  /** The facts of a row's JSON content the classifier reads, and the error codes found in it. */
  datatype Content = Content(errorClass: bool, cancelledMark: bool, success: Option<bool>, approvalRequired: bool,
                             codes: seq<string>)

  /** The per-call part of an audit envelope; a missing invocation has nothing in it. */
  datatype Envelope = Envelope(audit: bool, callId: Option<string>, toolName: Option<string>,
                               versionBefore: Option<int>, versionAfter: Option<int>, status: Status)

  datatype Row = Row(seqNo: int, callId: string, content: Option<Content>, envelope: Option<Envelope>,
                     parent: Option<string>, stateEvidence: bool)

  datatype Call = Call(id: string, name: string, arguments: string)

  datatype Turn = Turn(seqNo: int, messageId: string, calls: seq<Call>)

  /** `ordinal` counts the tool-bearing audit rows up to the event's turn. */
  datatype Event = Event(turnSeq: int, rowSeq: int, call: Call, outcome: Outcome, content: Option<Content>,
      ordinal: nat)

  // ---- Classifying rows ----

  function AuditOutcome(env: Envelope): Outcome {
    if env.status == CancelledStatus then Cancelled
    else if env.status == ArgError || env.status == PluginCrash then Failed
    else if && env.status == Success && env.versionBefore.Some? && env.versionAfter.Some?
            && 0 <= env.versionBefore.value < env.versionAfter.value then Applied
    else Completed
  }

  function RowOutcome(row: Row): Outcome {
    if row.content.Some? && row.content.value.errorClass then
      if row.content.value.cancelledMark then Cancelled else Failed
    else if row.content.Some? && row.content.value.success == Some(false) then Rejected
    else if row.stateEvidence then Applied
    else if row.envelope.None? then Completed
    else if !row.envelope.value.audit then Unknown
    else AuditOutcome(row.envelope.value)
  }

  /** A row's report of a refusal: an error class, a cancellation mark, a denied success or an audited failure. */
  ghost predicate Refuses(row: Row, outcome: Outcome) {
    var error := row.content.Some? && row.content.value.errorClass;
    var denied := !error && row.content.Some? && row.content.value.success == Some(false);
    var audited := !error && !denied && !row.stateEvidence && row.envelope.Some? && row.envelope.value.audit;
    match outcome
    case Rejected => denied
    case Cancelled => (error && row.content.value.cancelledMark) || (audited
        && row.envelope.value.status == CancelledStatus)
    case Failed =>
      || (error && !row.content.value.cancelledMark)
      || (audited && (row.envelope.value.status == ArgError || row.envelope.value.status == PluginCrash))
    case _ => false
  }

  function CountRows(rows: seq<Row>, id: string): nat {
    if rows == [] then 0 else (if rows[0].callId == id then 1 else 0) + CountRows(rows[1..], id)
  }

  lemma {:induction false} CountRowsAt(rows: seq<Row>, i: nat)
    requires i < |rows|
    ensures CountRows(rows, rows[i].callId) >= 1
    ensures CountRows(rows, rows[i].callId) == 1 ==>
        forall j :: 0 <= j < |rows| && rows[j].callId == rows[i].callId ==> j == i
  {
    if i == 0 {
      if CountRows(rows[1..], rows[0].callId) == 0 { CountNone(rows[1..], rows[0].callId); }
      assert forall j :: 1 <= j < |rows| ==> rows[j] == rows[1..][j - 1];
    } else {
      CountRowsAt(rows[1..], i - 1);
      assert forall j :: 1 <= j < |rows| ==> rows[j] == rows[1..][j - 1];
    }
  }

  lemma {:induction false} CountNone(rows: seq<Row>, id: string)
    requires CountRows(rows, id) == 0
    ensures forall j :: 0 <= j < |rows| ==> rows[j].callId != id
  {
    if rows != [] {
      CountNone(rows[1..], id);
      assert forall j :: 1 <= j < |rows| ==> rows[j] == rows[1..][j - 1];
    }
  }

  /** The outcome table: a call id with a single row has that row's outcome, a shared one is unknown. */
  ghost predicate IsOutcomes(rows: seq<Row>, outcomes: map<string, Outcome>) {
    && (forall i :: 0 <= i < |rows| ==> rows[i].callId in outcomes)
    && (forall i :: 0 <= i < |rows| && rows[i].callId in outcomes ==>
          outcomes[rows[i].callId] == if CountRows(rows, rows[i].callId) == 1 then RowOutcome(rows[i]) else Unknown)
    && (forall id :: id in outcomes ==> CountRows(rows, id) >= 1)
  }

  method ToolOutcomes(rows: seq<Row>) returns (outcomes: map<string, Outcome>)
    ensures IsOutcomes(rows, outcomes)
  {
    outcomes := map[];
    for k := 0 to |rows|
      invariant forall i :: 0 <= i < k ==> rows[i].callId in outcomes
      invariant forall i :: 0 <= i < k && rows[i].callId in outcomes ==>
                  outcomes[rows[i].callId] == if CountRows(rows, rows[i].callId) == 1
                      then RowOutcome(rows[i]) else Unknown
      invariant forall id :: id in outcomes ==> CountRows(rows, id) >= 1
    {
      CountRowsAt(rows, k);
      if CountRows(rows, rows[k].callId) != 1 {
        outcomes := outcomes[rows[k].callId := Unknown];
      } else {
        outcomes := outcomes[rows[k].callId := RowOutcome(rows[k])];
      }
    }
  }

  // ---- Pairing calls with rows ----

  function CountCalls(turns: seq<Turn>, id: string): nat {
    if turns == [] then 0 else CountIn(turns[0].calls, id) + CountCalls(turns[1..], id)
  }

  function CountIn(calls: seq<Call>, id: string): nat {
    if calls == [] then 0 else (if calls[0].id == id then 1 else 0) + CountIn(calls[1..], id)
  }

  function FindRow(rows: seq<Row>, id: string): (r: Option<Row>)
    ensures r.None? <==> CountRows(rows, id) == 0
    ensures r.Some? ==> r.value in rows && r.value.callId == id
  {
    if rows == [] then None else if rows[0].callId == id then Some(rows[0]) else FindRow(rows[1..], id)
  }

  /** The envelope, if any, does not name another call or another tool. */
  predicate EnvelopeAgrees(row: Row, call: Call) {
    row.envelope.Some? ==>
      && (row.envelope.value.callId.Some? ==> row.envelope.value.callId.value == call.id)
      && (row.envelope.value.toolName.Some? ==> row.envelope.value.toolName.value == call.name)
  }

  /** A row that can be held against exactly this call of this turn. */
  ghost predicate Grounds(row: Row, turns: seq<Turn>, rows: seq<Row>, turn: Turn, call: Call) {
    && row in rows && row.callId == call.id
    && CountCalls(turns, call.id) == 1 && CountRows(rows, call.id) == 1
    && row.parent == Some(turn.messageId) && row.seqNo > turn.seqNo
    && EnvelopeAgrees(row, call)
  }

  /** The row's own evidence of an applied mutation, not parked for approval. */
  ghost predicate ShowsApplied(row: Row) {
    && (row.content.Some? ==> !row.content.value.errorClass && row.content.value.success != Some(false)
                              && !row.content.value.approvalRequired)
    && (row.stateEvidence ||
        (row.envelope.Some? && row.envelope.value.audit && row.envelope.value.status == Success
         && row.envelope.value.versionBefore.Some? && row.envelope.value.versionAfter.Some?
         && 0 <= row.envelope.value.versionBefore.value < row.envelope.value.versionAfter.value))
  }

  function UpTo(seqNos: seq<int>, n: int): nat { |Where(seqNos, (k: int) => k <= n)| }

  /** What one event must be: without a grounding row unknown, with one classified by it. */
  ghost predicate IsEvent(e: Event, turns: seq<Turn>, rows: seq<Row>, toolBearing: seq<int>, turn: Turn, call: Call) {
    && e.call == call && e.turnSeq == turn.seqNo && e.ordinal == UpTo(toolBearing, turn.seqNo)
    && ((forall row :: row in rows ==> !Grounds(row, turns, rows, turn, call)) ==>
          e.outcome == Unknown && e.content == None && e.rowSeq == turn.seqNo)
    && (forall row :: row in rows && Grounds(row, turns, rows, turn, call) ==>
          && e.content == row.content && e.rowSeq == row.seqNo
          && e.outcome == if ShowsApplied(row) then Applied
                          else if RowOutcome(row) == Applied then Completed else RowOutcome(row))
  }

  method CallEvent(turns: seq<Turn>, rows: seq<Row>, toolBearing: seq<int>, outcomes: map<string, Outcome>,
                   turn: Turn, call: Call)
    returns (e: Event)
    requires IsOutcomes(rows, outcomes)
    ensures IsEvent(e, turns, rows, toolBearing, turn, call)
  {
    var row := if CountRows(rows, call.id) == 1 then FindRow(rows, call.id) else None;
    if CountCalls(turns, call.id) != 1
       || (row.Some? && (row.value.parent != Some(turn.messageId) || row.value.seqNo <= turn.seqNo)) {
      row := None;
    }
    if row.Some? && !EnvelopeAgrees(row.value, call) {
      row := None;
    }
    var outcome := if row.Some? && call.id in outcomes then outcomes[call.id] else Unknown;
    if row.Some? && outcome == Applied && row.value.content.Some? && row.value.content.value.approvalRequired {
      outcome := Completed;
    }
    e := Event(turn.seqNo, if row.Some? then row.value.seqNo else turn.seqNo, call, outcome,
               if row.Some? then row.value.content else None, UpTo(toolBearing, turn.seqNo));
    OnlyRow(rows, call.id);
  }

  lemma {:induction false} OnlyRow(rows: seq<Row>, id: string)
    ensures CountRows(rows, id) == 1 ==>
              FindRow(rows, id).Some? && forall row :: row in rows && row.callId == id ==>
                  row == FindRow(rows, id).value
  {
    if CountRows(rows, id) == 1 {
      var r := FindRow(rows, id).value;
      var i :| 0 <= i < |rows| && rows[i] == r;
      CountRowsAt(rows, i);
    }
  }

  /** The calls of the first turns in order. */
  function CallsBefore(turns: seq<Turn>, i: nat): seq<(Turn, Call)>
    requires i <= |turns|
  {
    if i == 0 then [] else CallsBefore(turns, i - 1) + CallsOf(turns[i - 1], turns[i - 1].calls)
  }

  function TurnCalls(turns: seq<Turn>): seq<(Turn, Call)> { CallsBefore(turns, |turns|) }

  function CallsOf(turn: Turn, calls: seq<Call>): (r: seq<(Turn, Call)>)
    ensures |r| == |calls| && forall i :: 0 <= i < |r| ==> r[i] == (turn, calls[i])
  {
    if calls == [] then [] else [(turn, calls[0])] + CallsOf(turn, calls[1..])
  }

  /** One event per call, in call order, each classified as it must be. */
  ghost predicate IsTimeline(events: seq<Event>, calls: seq<(Turn, Call)>, turns: seq<Turn>, rows: seq<Row>,
                             toolBearing: seq<int>) {
    |events| == |calls| &&
    forall i :: 0 <= i < |events| ==> IsEvent(events[i], turns, rows, toolBearing, calls[i].0, calls[i].1)
  }

  lemma {:induction false} TimelineJoin(a: seq<Event>, ac: seq<(Turn, Call)>, b: seq<Event>, bc: seq<(Turn, Call)>,
                                        turns: seq<Turn>, rows: seq<Row>, toolBearing: seq<int>)
    requires IsTimeline(a, ac, turns, rows, toolBearing) && IsTimeline(b, bc, turns, rows, toolBearing)
    ensures IsTimeline(a + b, ac + bc, turns, rows, toolBearing)
  {
    var e, c := a + b, ac + bc;
    forall i | 0 <= i < |e| ensures IsEvent(e[i], turns, rows, toolBearing, c[i].0, c[i].1) {
      if i < |a| { assert IsEvent(a[i], turns, rows, toolBearing, ac[i].0, ac[i].1); }
      else { assert IsEvent(b[i - |a|], turns, rows, toolBearing, bc[i - |a|].0, bc[i - |a|].1); }
    }
  }

  method Events(turns: seq<Turn>, rows: seq<Row>, toolBearing: seq<int>) returns (events: seq<Event>)
    ensures IsTimeline(events, TurnCalls(turns), turns, rows, toolBearing)
  {
    var outcomes := ToolOutcomes(rows);
    events := [];
    for i := 0 to |turns|
      invariant IsTimeline(events, CallsBefore(turns, i), turns, rows, toolBearing)
    {
      var turn := turns[i];
      var more := TurnEvents(turns, rows, toolBearing, outcomes, turn);
      TimelineJoin(events, CallsBefore(turns, i), more, CallsOf(turn, turn.calls), turns, rows, toolBearing);
      events := events + more;
    }
  }

  method TurnEvents(turns: seq<Turn>, rows: seq<Row>, toolBearing: seq<int>, outcomes: map<string, Outcome>, turn: Turn)
    returns (events: seq<Event>)
    requires IsOutcomes(rows, outcomes)
    ensures IsTimeline(events, CallsOf(turn, turn.calls), turns, rows, toolBearing)
  {
    events := [];
    for k := 0 to |turn.calls|
      invariant |events| == k
      invariant forall j :: 0 <= j < k ==> IsEvent(events[j], turns, rows, toolBearing, turn, turn.calls[j])
    {
      var e := CallEvent(turns, rows, toolBearing, outcomes, turn, turn.calls[k]);
      events := events + [e];
    }
  }

  /** An event is applied exactly when some row grounds its call and shows the mutation applied. */
  lemma {:induction false} AppliedIffGrounded(
    events: seq<Event>, turns: seq<Turn>, rows: seq<Row>, toolBearing: seq<int>, i: nat)
    requires IsTimeline(events, TurnCalls(turns), turns, rows, toolBearing) && i < |events|
    ensures events[i].outcome == Applied <==>
            exists row :: row in rows && ShowsApplied(row)
                          && Grounds(row, turns, rows, TurnCalls(turns)[i].0, TurnCalls(turns)[i].1)
  {
    var turn, call := TurnCalls(turns)[i].0, TurnCalls(turns)[i].1;
    assert IsEvent(events[i], turns, rows, toolBearing, turn, call);
    if events[i].outcome == Applied {
      var row :| row in rows && Grounds(row, turns, rows, turn, call);
      assert ShowsApplied(row);
    }
  }

  /** An event is refused in one way exactly when some row grounds its call and reports that refusal. */
  lemma {:induction false} RefusedIffGrounded(
    events: seq<Event>, turns: seq<Turn>, rows: seq<Row>, toolBearing: seq<int>, i: nat, outcome: Outcome)
    requires IsTimeline(events, TurnCalls(turns), turns, rows, toolBearing) && i < |events|
    requires outcome == Rejected || outcome == Failed || outcome == Cancelled
    ensures events[i].outcome == outcome <==>
            exists row :: row in rows && Refuses(row, outcome)
                          && Grounds(row, turns, rows, TurnCalls(turns)[i].0, TurnCalls(turns)[i].1)
  {
    var turn, call := TurnCalls(turns)[i].0, TurnCalls(turns)[i].1;
    assert IsEvent(events[i], turns, rows, toolBearing, turn, call);
    if events[i].outcome == outcome {
      var row :| row in rows && Grounds(row, turns, rows, turn, call);
      assert Refuses(row, outcome);
    }
  }
}
