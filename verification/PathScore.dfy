/**
 The path scorer reads the tool events once and charges deviations from a handful of running flags.
 Each deviation is also defined by what happened before its event, without any running state; the
 pass and the definitions agree on every timeline.
 */
module PathScore {
  import opened Common
  import opened ToolEvents

  datatype Edit = SetPipeline | Removal | Patch(tool: string, target: string) | OtherEdit

  /** A tool by its registry: a read, one of the four data tools, a pipeline mutation, or none of them. */
  datatype Tool =
    | Discovery(key: string, schema: bool) | CreateBlob | EditBlob | WireBlob
    | Pipeline(edit: Edit) | Untracked

  /** An event as the scorer sees it; `parked` is a successful proposal waiting for approval. */
  datatype Step = Step(turnSeq: int, rowSeq: int, tool: Tool, outcome: Outcome, parked: bool,
                       call: Call, codes: seq<string>, ordinal: nat)

  datatype Class =
    | ExcessDiscovery | ApprovalPending | DataSetupDetour | DataRework | Repair | Backtrack | SchemaFumble
    | AbandonedMutation | RetriedProviderError | MalformedOutput | TurnExhaustion | WallTimeout
    | Passivity | Decline | WrongShape | UnattributedExcess

  /** `about` is the event whose tool, argument digest and audit ordinal the deviation records. */
  datatype Deviation = Deviation(cls: Class, first: int, last: int, about: Option<Step>, codes: seq<string>)

  /** A deviation about one event, spanning its turn and row. */
  function Plain(cls: Class, s: Step, codes: seq<string>): Deviation {
    Deviation(cls, s.turnSeq, s.rowSeq, Some(s), codes)
  }

  function ToStep(e: Event, classify: Call -> Tool): Step {
    Step(e.turnSeq, e.rowSeq, classify(e.call), e.outcome,
         e.content.Some? && e.content.value.success == Some(true) && e.content.value.approvalRequired,
         e.call, if e.content.Some? then e.content.value.codes else [], e.ordinal)
  }

  predicate NotApplied(s: Step) { s.outcome == Rejected || s.outcome == Failed || s.outcome == Cancelled }

  predicate IsMutation(s: Step) { s.tool.CreateBlob? || s.tool.EditBlob? || s.tool.WireBlob? || s.tool.Pipeline? }

  /** A mutation neither refused nor applied: parked for approval, or without evidence either way. */
  predicate Undecided(s: Step) { IsMutation(s) && !NotApplied(s) && s.outcome != Applied }

  predicate IsParked(s: Step) { Undecided(s) && s.parked }

  /** A pipeline mutation the scorer gets to; parked ones are set aside. */
  predicate Attempt(s: Step) { s.tool.Pipeline? && !IsParked(s) }

  predicate Unapplied(s: Step) { s.tool.Pipeline? && NotApplied(s) }

  predicate Landed(s: Step) { s.tool.Pipeline? && s.outcome == Applied }

  // ---- Deviations by definition ----

  /** The same key was read before and no pipeline mutation was applied since. */
  ghost predicate ReadBefore(steps: seq<Step>, i: nat)
    requires i < |steps|
  {
    steps[i].tool.Discovery? &&
    exists j :: 0 <= j < i && steps[j].tool.Discovery? && steps[j].tool.key == steps[i].tool.key
                && forall k :: j < k < i ==> !Landed(steps[k])
  }

  ghost predicate BlobBefore(steps: seq<Step>, i: nat)
    requires i <= |steps|
  {
    exists j :: 0 <= j < i && steps[j].tool.CreateBlob? && !IsParked(steps[j])
  }

  ghost predicate LandedBefore(steps: seq<Step>, i: nat)
    requires i <= |steps|
  {
    exists j :: 0 <= j < i && Landed(steps[j])
  }

  ghost predicate EditBefore(steps: seq<Step>, i: nat, edit: Edit)
    requires i <= |steps|
  {
    exists j :: 0 <= j < i && Landed(steps[j]) && steps[j].tool.edit == edit
  }

  /** The attempt at `j` is the last one before `i`. */
  ghost predicate LastAttempt(steps: seq<Step>, j: int, i: nat)
    requires i <= |steps|
  {
    0 <= j < i && Attempt(steps[j]) && forall k :: j < k < i ==> !Attempt(steps[k])
  }

  /** The first applied mutation of the whole timeline, data tools included; 0 without one. */
  function FirstApplied(steps: seq<Step>): int {
    if steps == [] then 0
    else if IsMutation(steps[0]) && steps[0].outcome == Applied then steps[0].rowSeq
    else FirstApplied(steps[1..])
  }

  /** A refused attempt is still open before `i`. */
  ghost predicate Open(steps: seq<Step>, i: nat)
    requires i <= |steps|
  {
    exists j :: LastAttempt(steps, j, i) && Unapplied(steps[j])
  }

  ghost function OpenAttempt(steps: seq<Step>, i: nat): (r: Step)
    requires i <= |steps| && Open(steps, i)
  {
    var j :| LastAttempt(steps, j, i) && Unapplied(steps[j]); steps[j]
  }

  ghost function RepairAt(steps: seq<Step>, i: nat): seq<Deviation>
    requires i < |steps|
  {
    if Open(steps, i)
    then var s := OpenAttempt(steps, i); [Deviation(Repair, s.rowSeq, steps[i].rowSeq, Some(s), s.codes)]
    else []
  }

  ghost function BacktrackAt(steps: seq<Step>, i: nat): seq<Deviation>
    requires i < |steps| && steps[i].tool.Pipeline?
  {
    var edit := steps[i].tool.edit;
    if (edit.Removal? && LandedBefore(steps, i)) || (edit.SetPipeline? && EditBefore(steps, i, SetPipeline))
    then [Deviation(Backtrack, FirstApplied(steps), steps[i].rowSeq, Some(steps[i]), [])] else []
  }

  ghost function FumbleAt(steps: seq<Step>, i: nat): seq<Deviation>
    requires i < |steps| && steps[i].tool.Pipeline?
  {
    var edit := steps[i].tool.edit;
    if edit.Patch? && EditBefore(steps, i, edit)
    then [Plain(SchemaFumble, steps[i], [])] else []
  }

  /** The deviations an event is charged with, from the timeline alone. */
  ghost function ChargedAt(steps: seq<Step>, i: nat): seq<Deviation>
    requires i < |steps|
  {
    var s := steps[i];
    if s.tool.Discovery? then
      if ReadBefore(steps, i) then [Plain(ExcessDiscovery, s, [])] else []
    else if IsParked(s) then [Plain(ApprovalPending, s, ["APPROVAL_REQUIRED"])]
    else if s.tool.CreateBlob? then
      [Plain(if BlobBefore(steps, i) then DataRework else DataSetupDetour, s, [])]
    else if s.tool.EditBlob? then [Plain(DataRework, s, [])]
    else if s.tool.Pipeline? then
      RepairAt(steps, i) + (if Landed(s) then BacktrackAt(steps, i) + FumbleAt(steps, i) else [])
    else []
  }

  ghost function Flat(charges: nat -> seq<Deviation>, n: nat): seq<Deviation> {
    if n == 0 then [] else Flat(charges, n - 1) + charges(n - 1)
  }

  ghost function Charges(steps: seq<Step>): nat -> seq<Deviation> {
    (i: nat) => if i < |steps| then ChargedAt(steps, i) else []
  }

  ghost function ChargedBefore(steps: seq<Step>, i: nat): seq<Deviation>
    requires i <= |steps|
  {
    Flat(Charges(steps), i)
  }

  ghost function Abandoned(steps: seq<Step>): seq<Deviation> {
    if Open(steps, |steps|)
    then var s := OpenAttempt(steps, |steps|); [Plain(AbandonedMutation, s, s.codes)]
    else []
  }

  /** All deviations of the timeline. */
  ghost function Charged(steps: seq<Step>): seq<Deviation> { ChargedBefore(steps, |steps|) + Abandoned(steps) }

  // ---- The running flags ----

  datatype Running = Running(seen: set<string>, patched: set<Edit>, pending: Option<Step>,
                             appliedAny: bool, appliedSetPipeline: bool, blobCreated: bool)

  ghost predicate KeySeen(steps: seq<Step>, i: nat, key: string)
    requires i <= |steps|
  {
    exists j :: 0 <= j < i && steps[j].tool.Discovery? && steps[j].tool.key == key
                && forall k :: j < k < i ==> !Landed(steps[k])
  }

  ghost predicate TracksReads(steps: seq<Step>, i: nat, r: Running)
    requires i <= |steps|
  {
    forall key :: key in r.seen <==> KeySeen(steps, i, key)
  }

  ghost predicate TracksEdits(steps: seq<Step>, i: nat, r: Running)
    requires i <= |steps|
  {
    && (forall edit :: edit in r.patched <==> edit.Patch? && EditBefore(steps, i, edit))
    && (r.appliedAny <==> LandedBefore(steps, i))
    && (r.appliedSetPipeline <==> EditBefore(steps, i, SetPipeline))
    && (r.blobCreated <==> BlobBefore(steps, i))
  }

  ghost predicate TracksPending(steps: seq<Step>, i: nat, r: Running)
    requires i <= |steps|
  {
    if Open(steps, i) then r.pending == Some(OpenAttempt(steps, i)) else r.pending == None
  }

  ghost predicate Tracks(steps: seq<Step>, i: nat, r: Running)
    requires i <= |steps|
  {
    TracksReads(steps, i, r) && TracksEdits(steps, i, r) && TracksPending(steps, i, r)
  }

  lemma {:induction false} KeySeenNext(steps: seq<Step>, i: nat, key: string)
    requires i < |steps|
    ensures KeySeen(steps, i + 1, key) <==>
            || (steps[i].tool.Discovery? && steps[i].tool.key == key)
            || (!Landed(steps[i]) && KeySeen(steps, i, key))
  {
    if KeySeen(steps, i + 1, key) {
      var j :| 0 <= j < i + 1 && steps[j].tool.Discovery? && steps[j].tool.key == key
               && forall k :: j < k < i + 1 ==> !Landed(steps[k]);
      assert j == i || !Landed(steps[i]);
    }
    if !Landed(steps[i]) && KeySeen(steps, i, key) {
      var j :| 0 <= j < i && steps[j].tool.Discovery? && steps[j].tool.key == key
               && forall k :: j < k < i ==> !Landed(steps[k]);
      assert forall k :: j < k < i + 1 ==> !Landed(steps[k]);
    }
  }

  lemma {:induction false} OpenNext(steps: seq<Step>, i: nat)
    requires i < |steps|
    ensures Open(steps, i + 1) <==> if Attempt(steps[i]) then Unapplied(steps[i]) else Open(steps, i)
    ensures Open(steps, i + 1) ==>
              OpenAttempt(steps, i + 1) == if Attempt(steps[i]) then steps[i] else OpenAttempt(steps, i)
  {
    if Attempt(steps[i]) {
      assert LastAttempt(steps, i, i + 1);
    } else {
      forall j ensures LastAttempt(steps, j, i + 1) <==> LastAttempt(steps, j, i) {
        if LastAttempt(steps, j, i) { assert forall k :: j < k < i + 1 ==> !Attempt(steps[k]); }
      }
    }
    if Open(steps, i + 1) {
      var j :| LastAttempt(steps, j, i + 1) && Unapplied(steps[j]);
      var k :| LastAttempt(steps, k, i + 1) && Unapplied(steps[k]) && steps[k] == OpenAttempt(steps, i + 1);
      if Attempt(steps[i]) { assert k == i; }
    }
  }

  lemma {:induction false} EditsNext(steps: seq<Step>, i: nat, edit: Edit)
    requires i < |steps|
    ensures EditBefore(steps, i + 1, edit) <==>
        EditBefore(steps, i, edit) || (Landed(steps[i]) && steps[i].tool.edit == edit)
    ensures LandedBefore(steps, i + 1) <==> LandedBefore(steps, i) || Landed(steps[i])
    ensures BlobBefore(steps, i + 1) <==> BlobBefore(steps, i) || (steps[i].tool.CreateBlob? && !IsParked(steps[i]))
  {
  }

  /** What the flags become after one event. */
  ghost predicate Advances(s: Step, r: Running, q: Running) {
    && q.seen == (if s.tool.Discovery? then r.seen + {s.tool.key} else if Landed(s) then {} else r.seen)
    && q.patched == (if Landed(s) && s.tool.edit.Patch? then r.patched + {s.tool.edit} else r.patched)
    && q.pending == (if !Attempt(s) then r.pending else if Unapplied(s) then Some(s) else None)
    && q.appliedAny == (r.appliedAny || Landed(s))
    && q.appliedSetPipeline == (r.appliedSetPipeline || (Landed(s) && s.tool.edit.SetPipeline?))
    && q.blobCreated == (r.blobCreated || (s.tool.CreateBlob? && !IsParked(s)))
  }

  lemma {:induction false} TracksNext(steps: seq<Step>, i: nat, r: Running, q: Running)
    requires i < |steps| && Tracks(steps, i, r) && Advances(steps[i], r, q)
    ensures Tracks(steps, i + 1, q)
  {
    forall key ensures key in q.seen <==> KeySeen(steps, i + 1, key) { KeySeenNext(steps, i, key); }
    forall edit ensures edit in q.patched <==>
        edit.Patch? && EditBefore(steps, i + 1, edit) { EditsNext(steps, i, edit); }
    EditsNext(steps, i, SetPipeline);
    OpenNext(steps, i);
  }

  /** One event of the pass. */
  method Charge(steps: seq<Step>, i: nat, r: Running) returns (q: Running, deviations: seq<Deviation>)
    requires i < |steps| && Tracks(steps, i, r)
    ensures Advances(steps[i], r, q)
    ensures deviations == ChargedAt(steps, i)
  {
    var s := steps[i];
    q, deviations := r, [];
    if s.tool.Discovery? {
      assert ReadBefore(steps, i) <==> KeySeen(steps, i, s.tool.key);
      if s.tool.key in q.seen {
        deviations := [Plain(ExcessDiscovery, s, [])];
      }
      q := q.(seen := q.seen + {s.tool.key});
      return;
    }
    if IsMutation(s) && !NotApplied(s) && s.outcome != Applied && s.parked {
      deviations := [Plain(ApprovalPending, s, ["APPROVAL_REQUIRED"])];
      return;
    }
    if s.tool.CreateBlob? {
      deviations := [Plain(if q.blobCreated then DataRework else DataSetupDetour, s, [])];
      q := q.(blobCreated := true);
      return;
    }
    if s.tool.EditBlob? {
      deviations := [Plain(DataRework, s, [])];
      return;
    }
    if s.tool.WireBlob? || !IsMutation(s) {
      return;
    }
    q, deviations := ChargeAttempt(steps, i, r);
  }

  /** An attempted pipeline mutation. */
  method ChargeAttempt(steps: seq<Step>, i: nat, r: Running) returns (q: Running, deviations: seq<Deviation>)
    requires i < |steps| && Tracks(steps, i, r) && Attempt(steps[i])
    ensures Advances(steps[i], r, q)
    ensures deviations == ChargedAt(steps, i)
  {
    var s := steps[i];
    q, deviations := r, [];
    if q.pending.Some? {
      deviations := [Deviation(Repair, q.pending.value.rowSeq, s.rowSeq, q.pending, q.pending.value.codes)];
      q := q.(pending := None);
    }
    if NotApplied(s) {
      q := q.(pending := Some(s));
      return;
    }
    if s.outcome != Applied {
      return;
    }
    assert deviations == RepairAt(steps, i);
    var edit := s.tool.edit;
    var more: seq<Deviation> := [];
    if (edit.Removal? && q.appliedAny) || (edit.SetPipeline? && q.appliedSetPipeline) {
      more := [Deviation(Backtrack, FirstApplied(steps), s.rowSeq, Some(s), [])];
    }
    assert more == BacktrackAt(steps, i);
    if edit.Patch? {
      if edit in q.patched {
        more := more + [Plain(SchemaFumble, s, [])];
      }
      q := q.(patched := q.patched + {edit});
    }
    assert more == BacktrackAt(steps, i) + FumbleAt(steps, i);
    deviations := deviations + more;
    q := q.(appliedAny := true, appliedSetPipeline := q.appliedSetPipeline || edit.SetPipeline?, seen := {});
  }

  /** How many of the first `n` events have a property. */
  function Count(steps: seq<Step>, n: nat, p: Step -> bool): nat
    requires n <= |steps|
  {
    if n == 0 then 0 else Count(steps, n - 1, p) + if p(steps[n - 1]) then 1 else 0
  }

  datatype Tally = Tally(applied: nat, parked: nat, unknown: nat)

  ghost predicate IsTally(steps: seq<Step>, n: nat, t: Tally)
    requires n <= |steps|
  {
    && t.applied == Count(steps, n, (s: Step) => IsMutation(s) && s.outcome == Applied)
    && t.parked == Count(steps, n, (s: Step) => IsParked(s))
    && t.unknown == Count(steps, n, (s: Step) => Undecided(s) && !s.parked)
  }

  function Tallied(t: Tally, s: Step): Tally {
    if !IsMutation(s) || NotApplied(s) then t
    else if s.outcome == Applied then t.(applied := t.applied + 1)
    else if s.parked then t.(parked := t.parked + 1)
    else t.(unknown := t.unknown + 1)
  }

  /** The pass over the timeline: it charges exactly the deviations of the definitions. */
  method ScoreSteps(steps: seq<Step>) returns (deviations: seq<Deviation>, appliedAny: bool, tally: Tally)
    ensures deviations == Charged(steps)
    ensures appliedAny <==> LandedBefore(steps, |steps|)
    ensures IsTally(steps, |steps|, tally)
  {
    deviations, tally := [], Tally(0, 0, 0);
    var r := Running({}, {}, None, false, false, false);
    for i := 0 to |steps|
      invariant Tracks(steps, i, r) && deviations == ChargedBefore(steps, i)
      invariant IsTally(steps, i, tally)
    {
      tally := Tallied(tally, steps[i]);
      var q, more := Charge(steps, i, r);
      TracksNext(steps, i, r, q);
      r := q;
      deviations := deviations + more;
    }
    if r.pending.Some? {
      deviations := deviations + [Plain(AbandonedMutation, r.pending.value, r.pending.value.codes)];
    } else {
      assert deviations + [] == deviations;
    }
    appliedAny := r.appliedAny;
  }

  // ---- Every refused attempt is repaired or abandoned ----

  function CountClass(ds: seq<Deviation>, cls: Class): nat {
    if ds == [] then 0 else (if ds[0].cls == cls then 1 else 0) + CountClass(ds[1..], cls)
  }

  lemma {:induction false} CountClassJoin(a: seq<Deviation>, b: seq<Deviation>, cls: Class)
    ensures CountClass(a + b, cls) == CountClass(a, cls) + CountClass(b, cls)
  {
    if a == [] {
      assert a + b == b;
    } else {
      assert (a + b)[1..] == a[1..] + b;
      CountClassJoin(a[1..], b, cls);
    }
  }

  lemma {:induction false} CountOther(ds: seq<Deviation>, cls: Class)
    requires forall k :: 0 <= k < |ds| ==> ds[k].cls != cls
    ensures CountClass(ds, cls) == 0
  {
    if ds != [] { CountOther(ds[1..], cls); }
  }

  lemma {:induction false} ChargedClasses(steps: seq<Step>, i: nat)
    requires i < |steps|
    ensures CountClass(ChargedAt(steps, i), AbandonedMutation) == 0
    ensures CountClass(ChargedAt(steps, i), Repair) == if Attempt(steps[i]) && Open(steps, i) then 1 else 0
  {
    CountOther(ChargedAt(steps, i), AbandonedMutation);
    if Attempt(steps[i]) {
      AttemptRepairs(steps, i);
    } else {
      CountOther(ChargedAt(steps, i), Repair);
    }
  }

  lemma {:induction false} AttemptRepairs(steps: seq<Step>, i: nat)
    requires i < |steps| && Attempt(steps[i])
    ensures CountClass(ChargedAt(steps, i), Repair) == if Open(steps, i) then 1 else 0
  {
    var rest := if Landed(steps[i]) then BacktrackAt(steps, i) + FumbleAt(steps, i) else [];
    CountLeading(RepairAt(steps, i), rest, Repair);
  }

  lemma {:induction false} CountLeading(front: seq<Deviation>, rest: seq<Deviation>, cls: Class)
    requires |front| <= 1 && (front != [] ==> front[0].cls == cls)
    requires forall k :: 0 <= k < |rest| ==> rest[k].cls != cls
    ensures CountClass(front + rest, cls) == |front|
  {
    CountOther(rest, cls);
    CountClassJoin(front, rest, cls);
    if front != [] { assert front[1..] == []; }
  }

  ghost predicate Balanced(steps: seq<Step>, i: nat)
    requires i <= |steps|
  {
    && CountClass(ChargedBefore(steps, i), AbandonedMutation) == 0
    && Count(steps, i, (s: Step) => Unapplied(s)) ==
       CountClass(ChargedBefore(steps, i), Repair) + if Open(steps, i) then 1 else 0
  }

  lemma {:induction false} BalanceNext(steps: seq<Step>, i: nat)
    requires i < |steps| && Balanced(steps, i)
    ensures Balanced(steps, i + 1)
  {
    var before, at := ChargedBefore(steps, i), ChargedAt(steps, i);
    OpenNext(steps, i);
    ChargedClasses(steps, i);
    CountClassJoin(before, at, Repair);
    CountClassJoin(before, at, AbandonedMutation);
    assert ChargedBefore(steps, i + 1) == before + at;
  }

  lemma {:induction false} RepairsSoFar(steps: seq<Step>, i: nat)
    requires i <= |steps|
    ensures Balanced(steps, i)
  {
    if i == 0 {
      assert !Open(steps, 0);
    } else {
      RepairsSoFar(steps, i - 1);
      BalanceNext(steps, i - 1);
    }
  }

  /** Unapplied pipeline mutations are exactly the repaired ones and at most one abandoned. */
  lemma {:induction false} RepairedOrAbandoned(steps: seq<Step>)
    ensures Count(steps, |steps|, (s: Step) => Unapplied(s)) ==
            CountClass(Charged(steps), Repair) + CountClass(Charged(steps), AbandonedMutation)
    ensures CountClass(Charged(steps), AbandonedMutation) <= 1
  {
    RepairsSoFar(steps, |steps|);
    CountClassJoin(ChargedBefore(steps, |steps|), Abandoned(steps), Repair);
    CountClassJoin(ChargedBefore(steps, |steps|), Abandoned(steps), AbandonedMutation);
  }
}
