/**
 Evidence for a sharded test run: how each producer selects its tests, and builds and finalizes the
 manifest it publishes.
 */
module ShardEvidence {
  import opened Common
  import opened Sorting
  import opened ShardAssignment

  const ALGORITHM := "duration-lpt-v1"

  /** One long-running proof case and its test id. */
  datatype Case = Case(name: string, nodeid: string)

  /** An ordinary shard, or the producer of one proof case (by position in the catalog). */
  datatype Producer = Ordinary(index: nat) | Proof(entry: nat)

  /** Manifest fields; `None` stands for a missing key or a value of the wrong type. */
  datatype Manifest = Manifest(
    schemaVersion: Option<int>,
    algorithm: Option<string>,
    profileSha: Option<string>,
    commit: Option<string>,
    runId: Option<string>,
    runAttempt: Option<nat>,
    python: Option<string>,
    job: Option<string>,
    partition: Option<string>,
    proofCase: Option<Option<string>>,
    shardCount: Option<int>,
    shardIndex: Option<int>,
    digest: Option<string>,
    nodeids: Option<seq<string>>,
    exitStatus: Option<int>,
    proofCallPassed: Option<bool>)

  /** A downloaded artifact, its name already split into producer and canonical decimal attempt. */
  datatype Artifact = Artifact(
    isDir: bool, producer: Option<Producer>, attempt: Option<nat>, manifest: Option<Manifest>, coverageOk: bool)

  datatype Request = Request(
    count: int, python: string, profile: Profile, commit: string, runId: Option<string>, attempt: nat,
    cases: seq<Case>, digest: seq<string> -> string, combineOk: bool)

  ghost predicate CatalogOk(cases: seq<Case>) {
    forall i, j :: 0 <= i < j < |cases| ==> cases[i].name != cases[j].name && cases[i].nodeid != cases[j].nodeid
  }

  predicate IsCaseId(cases: seq<Case>, id: string) {
    exists k :: 0 <= k < |cases| && cases[k].nodeid == id
  }

  function CaseIds(cases: seq<Case>): (ids: seq<string>)
    ensures |ids| == |cases| && forall k :: 0 <= k < |cases| ==> ids[k] == cases[k].nodeid
  {
    seq(|cases|, k requires 0 <= k < |cases| => cases[k].nodeid)
  }

  /** `collection_digest`: a hash of the sorted ids. */
  function CollectionDigest(digest: seq<string> -> string, ids: seq<string>): string { digest(Sort(ids, StringLe)) }

  function OrdinaryOf(ids: seq<string>, cases: seq<Case>): seq<string> { Where(ids, id => !IsCaseId(cases, id)) }

  // ---- A producer ----

  /** The test ids a producer runs, out of the collection `ids`. */
  ghost predicate IsSelection(
    ids: seq<string>, cases: seq<Case>, p: Producer, count: nat, profile: Profile, r: seq<string>)
  {
    match p
    case Proof(k) => k < |cases| && r == [cases[k].nodeid]
    case Ordinary(i) =>
      && i < count
      && exists a :: IsAssignment(OrdinaryOf(ids, cases), count, profile, a) && IsShard(ids, cases, a, i, r)
  }

  ghost predicate IsShard(ids: seq<string>, cases: seq<Case>, a: map<string, nat>, i: nat, r: seq<string>) {
    && (forall id :: id in OrdinaryOf(ids, cases) ==> id in a)
    && r == Where(OrdinaryOf(ids, cases), id => id in a && a[id] == i)
  }

  /** What a producer needs to see: unique ids, and every proof case collected and marked exactly once. */
  ghost predicate Collectable(ids: seq<string>, marked: seq<string>, cases: seq<Case>) {
    && Distinct(ids)
    && (forall id :: id in CaseIds(cases) ==> id in ids)
    && Elements(marked) == Elements(CaseIds(cases))
    && |marked| == |Elements(CaseIds(cases))|
  }

  /** The position of a case name in the catalog, or its length. */
  function CaseIndex(cases: seq<Case>, name: string): (k: nat)
    ensures k <= |cases| && (k < |cases| ==> cases[k].name == name)
    ensures k == |cases| ==> forall j :: 0 <= j < |cases| ==> cases[j].name != name
  {
    if cases == [] then 0 else if cases[0].name == name then 0 else 1 + CaseIndex(cases[1..], name)
  }

  /** Which producer a partition name, a case name and a shard index describe, if any. */
  function ProducerOf(partition: string, kase: Option<string>, cases: seq<Case>, index: nat): Option<Producer> {
    if partition == "ordinary" && kase.None? then Some(Ordinary(index))
    else if partition == "proof" && kase.Some? && CaseIndex(cases, kase.value) < |cases|
    then Some(Proof(CaseIndex(cases, kase.value)))
    else None
  }

  /** `select_long_run_nodeids` */
  method SelectNodeids(
    ids: seq<string>, marked: seq<string>, cases: seq<Case>,
    partition: string, kase: Option<string>, count: int, index: int, profile: Profile)
    returns (r: Result<seq<string>, Refusal>)
    ensures r.Ok? <==>
            && count >= 1 && 0 <= index < count
            && ProducerOf(partition, kase, cases, index).Some?
            && (partition == "proof" ==> count == 1 && index == 0)
            && Collectable(ids, marked, cases)
    ensures r.Ok? ==>
              IsSelection(ids, cases, ProducerOf(partition, kase, cases, index).value, count, profile, r.value)
  {
    if count < 1 || !(0 <= index < count) {
      return Err(BadShard);
    }
    if partition != "ordinary" && partition != "proof" {
      return Err(BadPartition);
    }
    assert |"ordinary"| != |"proof"|;
    if (partition == "ordinary" && kase.Some?) ||
       (partition == "proof" && (kase.None? || CaseIndex(cases, kase.value) == |cases|))
    {
      return Err(BadCase);
    }
    if partition == "proof" && (count != 1 || index != 0) {
      return Err(BadProofShard);
    }
    var fault := CheckCollection(ids, marked, cases);
    if fault.Some? {
      return Err(fault.value);
    }
    if partition == "proof" {
      return Ok([cases[CaseIndex(cases, kase.value)].nodeid]);
    }
    var shard := SelectShard(ids, cases, count, index, profile);
    return Ok(shard);
  }

  lemma {:induction false} SubsetOfList(a: seq<string>, b: seq<string>)
    ensures Elements(a) <= Elements(b) <==> forall id :: id in a ==> id in b
  {
    assert forall id :: id in a <==> id in Elements(a);
    assert forall id :: id in b <==> id in Elements(b);
  }

  method CheckCollection(ids: seq<string>, marked: seq<string>, cases: seq<Case>) returns (fault: Option<Refusal>)
    ensures fault.None? <==> Collectable(ids, marked, cases)
  {
    Pigeonhole(ids);
    var collected, caseSet := Elements(ids), Elements(CaseIds(cases));
    if |ids| != |collected| {
      return Some(RepeatedIds);
    }
    SubsetOfList(CaseIds(cases), ids);
    if !(caseSet <= collected) || Elements(marked) != caseSet || |marked| != |caseSet| {
      return Some(WrongCases);
    }
    return None;
  }

  method SelectShard(ids: seq<string>, cases: seq<Case>, count: nat, index: nat, profile: Profile)
    returns (r: seq<string>)
    requires Distinct(ids) && index < count
    ensures IsSelection(ids, cases, Ordinary(index), count, profile, r)
  {
    var ordinary := OrdinaryOf(ids, cases);
    WhereDistinct(ids, id => !IsCaseId(cases, id));
    var assignment := OrdinaryAssignment(ordinary, count, profile);
    var a := assignment.value;
    r := Where(ordinary, id => id in a && a[id] == index);
    assert IsShard(ids, cases, a, index, r);
  }

  /** Where a manifest is made: the checked-out commit, the run it belongs to and the job making it. */
  datatype Host = Host(commit: string, runId: Option<string>, attempt: Option<nat>, job: Option<string>, python: string)

  function PartitionOf(p: Producer): string { if p.Ordinary? then "ordinary" else "proof" }

  function JobOf(p: Producer): string { if p.Ordinary? then "test" else "proof" }

  function CaseOf(p: Producer, cases: seq<Case>): Option<string> {
    if p.Proof? && p.entry < |cases| then Some(cases[p.entry].name) else None
  }

  function CountOf(p: Producer, count: int): int { if p.Ordinary? then count else 1 }

  function IndexOf(p: Producer): int { if p.Ordinary? then p.index else 0 }

  /** The manifest of producer `p` over the collection `ids`, before its tests have run. */
  ghost predicate IsBuilt(
    host: Host, profile: Profile, ids: seq<string>, cases: seq<Case>, p: Producer, count: int,
    digest: seq<string> -> string, m: Manifest)
  {
    && Distinct(ids) && (forall id :: id in CaseIds(cases) ==> id in ids)
    && m.schemaVersion == Some(4) && m.algorithm == Some(ALGORITHM) && m.profileSha == Some(profile.sha256)
    && m.commit == Some(host.commit) && m.runId == host.runId && m.runAttempt == host.attempt
    && m.python == Some(host.python) && m.job == (if host.runId.Some? then Some(JobOf(p)) else None)
    && m.partition == Some(PartitionOf(p)) && m.proofCase == Some(CaseOf(p, cases))
    && m.shardCount == Some(CountOf(p, count)) && m.shardIndex == Some(IndexOf(p))
    && m.digest == Some(CollectionDigest(digest, ids))
    && m.exitStatus.None? && m.proofCallPassed.None?
    && count >= 1 && m.nodeids.Some? && IsSelection(ids, cases, p, count, profile, m.nodeids.value)
  }

  /** `build_long_run_manifest` */
  method BuildManifest(
    host: Host, profile: Profile, ids: seq<string>, marked: seq<string>, cases: seq<Case>,
    partition: string, kase: Option<string>, count: int, index: int, digest: seq<string> -> string)
    returns (r: Result<Manifest, Refusal>)
    ensures r.Ok? <==>
            && count >= 1 && 0 <= index < count
            && ProducerOf(partition, kase, cases, index).Some?
            && (partition == "proof" ==> count == 1 && index == 0)
            && Collectable(ids, marked, cases)
            && (host.runId.Some? ==> host.job == Some(JobOf(ProducerOf(partition, kase, cases, index).value)))
    ensures r.Ok? ==>
              && index >= 0 && ProducerOf(partition, kase, cases, index).Some?
              && IsBuilt(host, profile, ids, cases, ProducerOf(partition, kase, cases, index).value, count, digest,
                  r.value)
  {
    var selected := SelectNodeids(ids, marked, cases, partition, kase, count, index, profile);
    if selected.Err? {
      return Err(selected.error);
    }
    assert |"ordinary"| != |"proof"|;
    var role := if partition == "ordinary" then "test" else "proof";
    var job := if host.runId.Some? then host.job else None;
    if host.runId.Some? && job != Some(role) {
      return Err(WrongRole);
    }
    return Ok(Manifest(Some(4), Some(ALGORITHM), Some(profile.sha256), Some(host.commit), host.runId, host.attempt,
                       Some(host.python), job, Some(partition), Some(kase), Some(count), Some(index),
                       Some(CollectionDigest(digest, ids)), Some(selected.value), None, None));
  }

  // ---- The one call a proof producer makes ----

  datatype Phase = Setup | Call | Teardown

  datatype Report = Report(nodeid: string, phase: Phase, passed: bool, xfailMarked: bool)

  /** `long_run_call_result`: a second call, or a bad one, spoils the result for good. */
  function CallResult(expected: string, r: Report, previous: Option<bool>): Option<bool> {
    if r.phase != Call then previous
    else Some(previous.None? && r.nodeid == expected && r.passed && !r.xfailMarked)
  }

  function CallResults(expected: string, reports: seq<Report>): Option<bool> {
    if reports == [] then None
    else CallResult(expected, reports[|reports| - 1], CallResults(expected, reports[..|reports| - 1]))
  }

  ghost predicate GoodCall(expected: string, r: Report) {
    r.phase == Call && r.nodeid == expected && r.passed && !r.xfailMarked
  }

  /** Over a whole session: a success means there was one call report, of the right test, and it passed unmarked. */
  lemma {:induction false} CallResultsMeaning(expected: string, reports: seq<Report>)
    ensures CallResults(expected, reports) == None <==>
            forall i :: 0 <= i < |reports| ==> reports[i].phase != Call
    ensures CallResults(expected, reports) == Some(true) <==>
            exists i :: && 0 <= i < |reports| && GoodCall(expected, reports[i])
                        && forall j :: 0 <= j < |reports| && j != i ==> reports[j].phase != Call
  {
    if reports != [] {
      var n := |reports| - 1;
      var init := reports[..n];
      CallResultsMeaning(expected, init);
      assert forall i :: 0 <= i < n ==> reports[i] == init[i];
      if reports[n].phase == Call {
        if CallResults(expected, init).None? {
          if GoodCall(expected, reports[n]) { assert CallResults(expected, reports) == Some(true); }
        } else {
          assert exists j :: 0 <= j < n && init[j].phase == Call;
        }
      } else if CallResults(expected, init) == Some(true) {
        var i :| && 0 <= i < |init| && GoodCall(expected, init[i])
                 && forall j :: 0 <= j < |init| && j != i ==> init[j].phase != Call;
        assert GoodCall(expected, reports[i]);
      }
    }
  }

  /** `finalize_long_run_manifest`, leaving the coverage database aside. */
  function Finalize(
    m: Manifest, exitStatus: int, callPassed: Option<bool>, cases: seq<Case>): Result<Manifest, Refusal>
  {
    if exitStatus < 0 then Err(BadExit)
    else if m.schemaVersion != Some(4) || m.exitStatus.Some? || m.proofCallPassed.Some? then
      Err(NotOpen)
    else if m.partition == Some("ordinary") then
      if m.proofCase != Some(None) || callPassed.Some? then Err(MixedEvidence)
      else Ok(m.(exitStatus := Some(exitStatus)))
    else if m.partition == Some("proof") then
      if !(&& m.proofCase.Some? && m.proofCase.value.Some?
           && var k := CaseIndex(cases, m.proofCase.value.value);
              k < |cases| && m.nodeids == Some([cases[k].nodeid])) then
        Err(NotTheCase)
      else
        Ok(m.(proofCallPassed := Some(callPassed == Some(true)),
              exitStatus := Some(if callPassed != Some(true) && exitStatus == 0 then 1 else exitStatus)))
    else Err(BadPartition)
  }

  /** Proof evidence is never green unless the session made exactly its one call and that call passed. */
  lemma {:induction false} GreenProofMeansOneCall(
    m: Manifest, exitStatus: int, cases: seq<Case>, k: nat, reports: seq<Report>, t: Manifest)
    requires k < |cases| && m.partition == Some("proof")
    requires Finalize(m, exitStatus, CallResults(cases[k].nodeid, reports), cases) == Ok(t)
    requires t.exitStatus == Some(0)
    ensures t.proofCallPassed == Some(true)
    ensures exists i :: && 0 <= i < |reports| && GoodCall(cases[k].nodeid, reports[i])
                        && forall j :: 0 <= j < |reports| && j != i ==> reports[j].phase != Call
  {
    assert |"ordinary"| != |"proof"|;
    CallResultsMeaning(cases[k].nodeid, reports);
  }
}
