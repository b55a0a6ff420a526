/** The validator of a union of shard manifests: what it accepts, and what acceptance means. */
module ShardValidation {
  import opened Common
  import opened Sorting
  import opened ShardAssignment
  import opened ShardEvidence

  datatype Fault =
    | BadRequest | NoRunIdentity | UnknownArtifact | DuplicateAttempt | MissingProducer
    | WrongIdentity | NotFinalized | NoProofCall | ProofOverlap | NoDigest | BadCoverage
    | BadUnion | Misassigned

  /** The producers whose evidence is required, in the order in which they are visited. */
  function Producers(req: Request): (ps: seq<Producer>)
    requires req.count >= 0
    ensures |ps| == req.count + |req.cases|
    ensures forall k :: 0 <= k < |ps| ==> ps[k] == if k < req.count then Ordinary(k) else Proof(k - req.count)
  {
    seq(req.count, i requires 0 <= i < req.count => Ordinary(i)) + seq(|req.cases|, k requires 0 <= k => Proof(k))
  }

  // ---- Screening ----

  predicate NameOk(req: Request, a: Artifact)
    requires req.count >= 0
  {
    && a.isDir && a.producer.Some? && a.producer.value in Producers(req)
    && a.attempt.Some? && 1 <= a.attempt.value <= req.attempt
  }

  ghost predicate NamesOk(req: Request, artifacts: seq<Artifact>)
    requires req.count >= 0
  {
    && (forall i :: 0 <= i < |artifacts| ==> NameOk(req, artifacts[i]))
    && forall i, j :: 0 <= i < j < |artifacts| ==>
         artifacts[i].producer != artifacts[j].producer || artifacts[i].attempt != artifacts[j].attempt
  }

  /** `a` is the artifact of the highest attempt of producer `p`. */
  ghost predicate IsNewest(artifacts: seq<Artifact>, p: Producer, a: Artifact) {
    && a in artifacts && a.producer == Some(p) && a.attempt.Some?
    && forall b :: b in artifacts && b.producer == Some(p) && b.attempt.Some? ==> b.attempt.value <= a.attempt.value
  }

  function IdentityOk(req: Request, p: Producer, attempt: nat, m: Manifest): bool {
    && m.schemaVersion == Some(4) && m.algorithm == Some(ALGORITHM) && m.profileSha == Some(req.profile.sha256)
    && m.commit == Some(req.commit) && m.runId == req.runId && m.runAttempt == Some(attempt)
    && m.python == Some(req.python) && m.job == Some(JobOf(p)) && m.partition == Some(PartitionOf(p))
    && m.shardCount == Some(CountOf(p, req.count)) && m.shardIndex == Some(IndexOf(p))
    && m.proofCase == Some(CaseOf(p, req.cases)) && (p.Ordinary? ==> m.proofCallPassed.None?)
  }

  /** What is wrong with the newest artifact of producer `p`, if anything, in the order of the checks. */
  function ArtifactFault(req: Request, p: Producer, a: Artifact): Option<Fault>
    requires a.attempt.Some? && (p.Proof? ==> p.entry < |req.cases|)
  {
    if a.manifest.None? then Some(WrongIdentity)
    else
      var m := a.manifest.value;
      if !IdentityOk(req, p, a.attempt.value, m) then Some(WrongIdentity)
      else if m.exitStatus != Some(0) || m.nodeids.None? || m.nodeids.value == [] then Some(NotFinalized)
      else if p.Proof? && (m.nodeids.value != [req.cases[p.entry].nodeid] || m.proofCallPassed != Some(true)) then
        Some(NoProofCall)
      else if p.Ordinary? && exists id :: id in m.nodeids.value && IsCaseId(req.cases, id) then Some(ProofOverlap)
      else if m.digest.None? then Some(NoDigest)
      else if req.python == "3.13" && !a.coverageOk then Some(BadCoverage)
      else None
  }

  // ---- The union ----

  function Ids(a: Artifact): seq<string> {
    if a.manifest.Some? && a.manifest.value.nodeids.Some? then a.manifest.value.nodeids.value else []
  }

  function DigestOf(a: Artifact): Option<string> { if a.manifest.Some? then a.manifest.value.digest else None }

  /** The ids of the artifacts in positions `lo` to `hi`, in order. */
  function Union(chosen: seq<Artifact>, lo: nat, hi: nat): seq<string>
    requires lo <= hi <= |chosen|
  {
    if lo == hi then [] else Union(chosen, lo, hi - 1) + Ids(chosen[hi - 1])
  }

  function WholeUnion(chosen: seq<Artifact>): seq<string> { Union(chosen, 0, |chosen|) }

  /** Every ordinary shard holds only tests that the assignment `a` of all of them gives it. */
  ghost predicate AssignedBy(req: Request, chosen: seq<Artifact>, a: map<string, nat>)
    requires 0 <= req.count <= |chosen|
  {
    && IsAssignment(Union(chosen, 0, req.count), req.count, req.profile, a)
    && forall k, id :: 0 <= k < req.count && id in Ids(chosen[k]) ==> id in a && a[id] == k
  }

  ghost predicate WellAssigned(req: Request, chosen: seq<Artifact>)
    requires 0 <= req.count <= |chosen|
  {
    exists a :: AssignedBy(req, chosen, a)
  }

  ghost predicate UnionOk(req: Request, chosen: seq<Artifact>)
    requires 0 <= req.count <= |chosen|
  {
    && Distinct(WholeUnion(chosen))
    && (forall k :: 0 <= k < |chosen| ==> DigestOf(chosen[k]) == Some(CollectionDigest(req.digest, WholeUnion(chosen))))
    && WellAssigned(req, chosen)
  }

  ghost predicate RequestOk(req: Request) {
    req.count >= 1 && (req.python == "3.12" || req.python == "3.13") && req.runId.Some?
  }

  /** `chosen[k]` is the newest artifact of the `k`-th producer, and all of them together are admissible. */
  ghost predicate AcceptsWith(req: Request, artifacts: seq<Artifact>, chosen: seq<Artifact>) {
    && RequestOk(req) && NamesOk(req, artifacts)
    && |chosen| == |Producers(req)|
    && (forall k :: 0 <= k < |chosen| ==>
          IsNewest(artifacts, Producers(req)[k], chosen[k]) && ArtifactFault(req, Producers(req)[k], chosen[k]).None?)
    && UnionOk(req, chosen)
    && (req.python == "3.13" ==> req.combineOk)
  }

  ghost predicate Accepts(req: Request, artifacts: seq<Artifact>) {
    exists chosen :: AcceptsWith(req, artifacts, chosen)
  }

  /** Superseded artifacts have no say, whatever they hold. */
  lemma {:induction false} NewestDecides(req: Request, artifacts: seq<Artifact>, others: seq<Artifact>)
    requires req.count >= 0 && NamesOk(req, artifacts) && NamesOk(req, others)
    requires forall p, a :: p in Producers(req) ==> (IsNewest(artifacts, p, a) <==> IsNewest(others, p, a))
    ensures Accepts(req, artifacts) <==> Accepts(req, others)
  {
    if Accepts(req, artifacts) {
      var chosen :| AcceptsWith(req, artifacts, chosen);
      NewestCarriesOver(req, artifacts, others, chosen);
    }
    if Accepts(req, others) {
      var chosen :| AcceptsWith(req, others, chosen);
      NewestCarriesOver(req, others, artifacts, chosen);
    }
  }

  lemma {:induction false} NewestCarriesOver(
    req: Request, artifacts: seq<Artifact>, others: seq<Artifact>, chosen: seq<Artifact>)
    requires AcceptsWith(req, artifacts, chosen) && NamesOk(req, others)
    requires forall p, a :: p in Producers(req) && IsNewest(artifacts, p, a) ==> IsNewest(others, p, a)
    ensures AcceptsWith(req, others, chosen)
  {
    forall k | 0 <= k < |chosen| ensures IsNewest(others, Producers(req)[k], chosen[k]) {
      assert Producers(req)[k] in Producers(req) && IsNewest(artifacts, Producers(req)[k], chosen[k]);
    }
  }

  // ---- Facts about unions ----

  /** How often `id` occurs in the artifacts in positions `lo` to `hi`. */
  ghost function Tally(chosen: seq<Artifact>, lo: nat, hi: nat, id: string): nat
    requires lo <= hi <= |chosen|
  {
    if lo == hi then 0 else Tally(chosen, lo, hi - 1, id) + multiset(Ids(chosen[hi - 1]))[id]
  }

  lemma {:induction false} UnionTally(chosen: seq<Artifact>, lo: nat, hi: nat, id: string)
    requires lo <= hi <= |chosen|
    ensures multiset(Union(chosen, lo, hi))[id] == Tally(chosen, lo, hi, id)
  {
    if lo < hi { UnionTally(chosen, lo, hi - 1, id); }
  }

  lemma {:induction false} UnionMembers(chosen: seq<Artifact>, lo: nat, hi: nat, id: string)
    requires lo <= hi <= |chosen|
    ensures id in Union(chosen, lo, hi) <==> exists k :: lo <= k < hi && id in Ids(chosen[k])
  {
    if lo < hi { UnionMembers(chosen, lo, hi - 1, id); }
  }

  lemma {:induction false} TallySplit(chosen: seq<Artifact>, lo: nat, mid: nat, hi: nat, id: string)
    requires lo <= mid <= hi <= |chosen|
    ensures Tally(chosen, lo, hi, id) == Tally(chosen, lo, mid, id) + Tally(chosen, mid, hi, id)
  {
    if mid < hi { TallySplit(chosen, lo, mid, hi - 1, id); }
  }

  lemma {:induction false} TallyAt(chosen: seq<Artifact>, lo: nat, hi: nat, id: string, k: nat)
    requires lo <= k < hi <= |chosen|
    ensures Tally(chosen, lo, hi, id) >= multiset(Ids(chosen[k]))[id]
  {
    if k < hi - 1 { TallyAt(chosen, lo, hi - 1, id, k); }
  }

  lemma {:induction false} TallyTwo(chosen: seq<Artifact>, lo: nat, hi: nat, id: string, j: nat, k: nat)
    requires lo <= j < k < hi <= |chosen|
    ensures Tally(chosen, lo, hi, id) >= multiset(Ids(chosen[j]))[id] + multiset(Ids(chosen[k]))[id]
  {
    if k < hi - 1 { TallyTwo(chosen, lo, hi - 1, id, j, k); } else { TallyAt(chosen, lo, hi - 1, id, j); }
  }

  // ---- Soundness ----

  /** Test `id` was run by the `k`-th producer and by no other, and only once there. */
  ghost predicate RanOnlyIn(chosen: seq<Artifact>, id: string, k: nat) {
    && k < |chosen| && multiset(Ids(chosen[k]))[id] == 1
    && forall j :: 0 <= j < |chosen| && j != k ==> id !in Ids(chosen[j])
  }

  lemma {:induction false} RanOnce(chosen: seq<Artifact>, id: string)
    requires Distinct(WholeUnion(chosen)) && id in WholeUnion(chosen)
    ensures exists k: nat :: RanOnlyIn(chosen, id, k)
  {
    var n := |chosen|;
    UnionMembers(chosen, 0, n, id);
    var k :| 0 <= k < n && id in Ids(chosen[k]);
    CountOnce(WholeUnion(chosen), id);
    UnionTally(chosen, 0, n, id);
    TallyAt(chosen, 0, n, id, k);
    assert multiset(Ids(chosen[k]))[id] >= 1;
    forall j | 0 <= j < n && j != k ensures id !in Ids(chosen[j]) {
      TallyTwo(chosen, 0, n, id, if j < k then j else k, if j < k then k else j);
      assert multiset(Ids(chosen[j]))[id] == 0;
    }
    assert RanOnlyIn(chosen, id, k);
  }

  /** With an injective digest, acceptance pins every producer's collection to the union that was run. */
  lemma {:induction false} OneCollection(
    req: Request, artifacts: seq<Artifact>, chosen: seq<Artifact>, k: nat, collection: seq<string>)
    requires AcceptsWith(req, artifacts, chosen) && Injective(req.digest)
    requires k < |chosen| && DigestOf(chosen[k]) == Some(CollectionDigest(req.digest, collection))
    ensures multiset(collection) == multiset(WholeUnion(chosen))
  {
    StringOrder();
    assert DigestOf(chosen[k]) == Some(CollectionDigest(req.digest, WholeUnion(chosen)));
    SortComparesMultisets(collection, WholeUnion(chosen), StringLe);
  }

  /** Proof producers hold their case alone; ordinary ones hold no case. */
  ghost predicate Partitioned(req: Request, chosen: seq<Artifact>) {
    && 0 <= req.count && |chosen| == req.count + |req.cases|
    && (forall k, id :: 0 <= k < req.count && id in Ids(chosen[k]) ==> !IsCaseId(req.cases, id))
    && (forall k :: req.count <= k < |chosen| ==> Ids(chosen[k]) == [CaseIds(req.cases)[k - req.count]])
  }

  lemma {:induction false} AcceptedIsPartitioned(req: Request, artifacts: seq<Artifact>, chosen: seq<Artifact>)
    requires AcceptsWith(req, artifacts, chosen)
    ensures Partitioned(req, chosen)
  {
    forall k, id | 0 <= k < req.count && id in Ids(chosen[k]) ensures !IsCaseId(req.cases, id) {
      AcceptedPart(req, artifacts, chosen, k);
    }
    forall k | req.count <= k < |chosen| ensures Ids(chosen[k]) == [CaseIds(req.cases)[k - req.count]] {
      AcceptedPart(req, artifacts, chosen, k);
    }
  }

  lemma {:induction false} AcceptedPart(req: Request, artifacts: seq<Artifact>, chosen: seq<Artifact>, k: nat)
    requires AcceptsWith(req, artifacts, chosen) && k < |chosen|
    ensures k < req.count ==> forall id :: id in Ids(chosen[k]) ==> !IsCaseId(req.cases, id)
    ensures req.count <= k ==> Ids(chosen[k]) == [CaseIds(req.cases)[k - req.count]]
  {
    assert Producers(req)[k] == if k < req.count then Ordinary(k) else Proof(k - req.count);
    PassedArtifact(req, Producers(req)[k], chosen[k]);
  }

  lemma {:induction false} PassedArtifact(req: Request, p: Producer, a: Artifact)
    requires a.attempt.Some? && (p.Proof? ==> p.entry < |req.cases|) && ArtifactFault(req, p, a).None?
    ensures p.Ordinary? ==> forall id :: id in Ids(a) ==> !IsCaseId(req.cases, id)
    ensures p.Proof? ==> Ids(a) == [CaseIds(req.cases)[p.entry]]
  {
  }

  /** No case id among the ordinary ids, nothing else among the proof ids. */
  lemma {:induction false} UnionByPartition(req: Request, chosen: seq<Artifact>, id: string)
    requires Partitioned(req, chosen)
    ensures id in Union(chosen, 0, req.count) ==> !IsCaseId(req.cases, id)
    ensures id in Union(chosen, req.count, |chosen|) ==> IsCaseId(req.cases, id)
  {
    UnionMembers(chosen, 0, req.count, id);
    UnionMembers(chosen, req.count, |chosen|, id);
    if id in Union(chosen, req.count, |chosen|) {
      var k :| req.count <= k < |chosen| && id in Ids(chosen[k]);
      assert id == CaseIds(req.cases)[k - req.count];
    }
  }

  /** The ordinary tests of an accepted collection are the union of the ordinary shards. */
  lemma {:induction false} OrdinaryUnion(
    req: Request, chosen: seq<Artifact>, collection: seq<string>)
    requires Partitioned(req, chosen) && multiset(collection) == multiset(WholeUnion(chosen))
    ensures multiset(OrdinaryOf(collection, req.cases)) == multiset(Union(chosen, 0, req.count))
  {
    var c, n := req.count, |chosen|;
    forall id ensures multiset(OrdinaryOf(collection, req.cases))[id] == multiset(Union(chosen, 0, c))[id] {
      WhereCount(collection, x => !IsCaseId(req.cases, x), id);
      UnionByPartition(req, chosen, id);
      UnionTally(chosen, 0, n, id);
      UnionTally(chosen, 0, c, id);
      UnionTally(chosen, c, n, id);
      TallySplit(chosen, 0, c, n, id);
      if IsCaseId(req.cases, id) {
        assert id !in Union(chosen, 0, c);
      } else {
        assert id !in Union(chosen, c, n);
      }
    }
  }

  lemma {:induction false} AssignmentRespectsMultisets(
    ids: seq<string>, jds: seq<string>, count: nat, p: Profile, a: map<string, nat>)
    requires multiset(ids) == multiset(jds) && IsAssignment(ids, count, p, a)
    ensures IsAssignment(jds, count, p, a)
  {
    LongestFirstOrder(p);
    SortComparesMultisets(ids, jds, LongestFirst(p));
    OrderedMembers(ids, p);
    OrderedMembers(jds, p);
    assert Ordered(ids, p) == Ordered(jds, p);
    forall id ensures id in ids <==> id in jds {
      assert id in multiset(ids) <==> id in multiset(jds);
    }
  }

  /** Every ordinary test is in the shard the assignment names, and nowhere else. */
  ghost predicate ShardsFollow(req: Request, chosen: seq<Artifact>, a: map<string, nat>)
    requires 0 <= req.count <= |chosen|
  {
    && (forall id :: id in a ==> a[id] < req.count && id in Ids(chosen[a[id]]))
    && forall k, id :: 0 <= k < req.count && id in Ids(chosen[k]) ==> id in a && a[id] == k
  }

  lemma {:induction false} FollowsBothWays(req: Request, chosen: seq<Artifact>, a: map<string, nat>)
    requires 0 <= req.count <= |chosen|
    requires forall id :: id in a ==> id in Union(chosen, 0, req.count)
    requires forall k, id :: 0 <= k < req.count && id in Ids(chosen[k]) ==> id in a && a[id] == k
    ensures ShardsFollow(req, chosen, a)
  {
    forall id | id in a ensures a[id] < req.count && id in Ids(chosen[a[id]]) {
      UnionMembers(chosen, 0, req.count, id);
      var k :| 0 <= k < req.count && id in Ids(chosen[k]);
    }
  }

  ghost predicate RanWhereAssigned(req: Request, chosen: seq<Artifact>, collection: seq<string>, a: map<string, nat>)
    requires 0 <= req.count <= |chosen|
  {
    && IsAssignment(OrdinaryOf(collection, req.cases), req.count, req.profile, a)
    && ShardsFollow(req, chosen, a)
  }

  lemma {:induction false} CollectionIsAssigned(
    req: Request, chosen: seq<Artifact>, collection: seq<string>, a: map<string, nat>)
    requires Partitioned(req, chosen) && IsAssignment(Union(chosen, 0, req.count), req.count, req.profile, a)
    requires multiset(collection) == multiset(WholeUnion(chosen))
    ensures IsAssignment(OrdinaryOf(collection, req.cases), req.count, req.profile, a)
  {
    OrdinaryUnion(req, chosen, collection);
    AssignmentRespectsMultisets(
      Union(chosen, 0, req.count), OrdinaryOf(collection, req.cases), req.count, req.profile, a);
  }

  lemma {:induction false} ShardsFollowAssignment(
    req: Request, chosen: seq<Artifact>, collection: seq<string>, a: map<string, nat>)
    requires Partitioned(req, chosen) && AssignedBy(req, chosen, a)
    requires multiset(collection) == multiset(WholeUnion(chosen))
    ensures RanWhereAssigned(req, chosen, collection, a)
  {
    CollectionIsAssigned(req, chosen, collection, a);
    AssignedFollow(req, chosen, a);
  }

  lemma {:induction false} AssignedFollow(req: Request, chosen: seq<Artifact>, a: map<string, nat>)
    requires 0 <= req.count <= |chosen| && AssignedBy(req, chosen, a)
    ensures ShardsFollow(req, chosen, a)
  {
    AssignmentDomain(Union(chosen, 0, req.count), req.count, req.profile, a);
    FollowsBothWays(req, chosen, a);
  }

  lemma {:induction false} CollectedRanOnce(chosen: seq<Artifact>, collection: seq<string>)
    requires Distinct(WholeUnion(chosen)) && multiset(collection) == multiset(WholeUnion(chosen))
    ensures forall id :: id in collection ==> exists k: nat :: RanOnlyIn(chosen, id, k)
  {
    forall id | id in collection ensures exists k: nat :: RanOnlyIn(chosen, id, k) {
      assert id in multiset(collection);
      assert id in multiset(WholeUnion(chosen));
      RanOnce(chosen, id);
    }
  }

  /** The claim about one producer that hashed `collection`. */
  ghost predicate Vindicated(req: Request, chosen: seq<Artifact>, collection: seq<string>)
    requires 0 <= req.count <= |chosen|
  {
    && multiset(collection) == multiset(WholeUnion(chosen))
    && (forall id :: id in collection ==> exists k: nat :: RanOnlyIn(chosen, id, k))
    && exists a :: RanWhereAssigned(req, chosen, collection, a)
  }

  /**
   Acceptance means, whichever producer's collection we look at: it is the union of what was run (so
   all producers collected the same tests), every collected test ran in exactly one producer, ordinary
   tests ran where the assignment of that collection puts them, and each proof case ran alone.
   */
  lemma {:induction false} Soundness(
    req: Request, artifacts: seq<Artifact>, chosen: seq<Artifact>, k: nat, collection: seq<string>)
    requires AcceptsWith(req, artifacts, chosen) && Injective(req.digest) && k < |chosen|
    requires DigestOf(chosen[k]) == Some(CollectionDigest(req.digest, collection))
    ensures Vindicated(req, chosen, collection)
    ensures Partitioned(req, chosen)
  {
    OneCollection(req, artifacts, chosen, k, collection);
    CollectedRanOnce(chosen, collection);
    AcceptedIsPartitioned(req, artifacts, chosen);
    var a :| AssignedBy(req, chosen, a);
    ShardsFollowAssignment(req, chosen, collection, a);
  }

  // ---- The validator, as it is computed ----

  /** The candidates table: attempt numbers to artifacts, per producer. */
  type Candidates = map<Producer, map<nat, Artifact>>

  ghost predicate IsAttempt(artifacts: seq<Artifact>, p: Producer, n: nat, a: Artifact) {
    a in artifacts && a.producer == Some(p) && a.attempt.Some? && a.attempt.value == n
  }

  ghost predicate Tabulates(req: Request, artifacts: seq<Artifact>, table: Candidates)
    requires req.count >= 0
  {
    && (forall p :: p in table <==> p in Producers(req))
    && (forall p, n: nat :: p in table && n in table[p] ==> IsAttempt(artifacts, p, n, table[p][n]))
    && (forall a :: a in artifacts ==>
          && NameOk(req, a) && a.producer.value in table
          && a.attempt.value in table[a.producer.value] && table[a.producer.value][a.attempt.value] == a)
  }

  function AddCandidate(table: Candidates, a: Artifact): Candidates
    requires a.producer.Some? && a.attempt.Some? && a.producer.value in table
  {
    var entry: map<nat, Artifact> := map[a.attempt.value := a];
    table[a.producer.value := table[a.producer.value] + entry]
  }

  method TabulateCandidates(req: Request, artifacts: seq<Artifact>) returns (r: Result<Candidates, Fault>)
    requires req.count >= 0
    ensures r.Ok? <==> NamesOk(req, artifacts)
    ensures r.Ok? ==> Tabulates(req, artifacts, r.value)
  {
    var table: Candidates := map p: Producer | p in Producers(req) :: map[];
    for i := 0 to |artifacts|
      invariant NamesOk(req, artifacts[..i]) && Tabulates(req, artifacts[..i], table)
    {
      var a := artifacts[i];
      if !NameOk(req, a) {
        return Err(UnknownArtifact);
      }
      var p, n := a.producer.value, a.attempt.value;
      if n in table[p] {
        assert table[p][n] in artifacts[..i];
        return Err(DuplicateAttempt);
      }
      TabulateOne(req, artifacts, i, table);
      table := AddCandidate(table, a);
    }
    assert artifacts[..|artifacts|] == artifacts;
    return Ok(table);
  }

  lemma {:induction false} TabulateOne(req: Request, artifacts: seq<Artifact>, i: nat, table: Candidates)
    requires req.count >= 0 && i < |artifacts|
    requires NamesOk(req, artifacts[..i]) && Tabulates(req, artifacts[..i], table) && NameOk(req, artifacts[i])
    requires artifacts[i].attempt.value !in table[artifacts[i].producer.value]
    ensures NamesOk(req, artifacts[..i + 1])
    ensures Tabulates(req, artifacts[..i + 1], AddCandidate(table, artifacts[i]))
  {
    assert artifacts[..i + 1] == artifacts[..i] + [artifacts[i]];
    forall j | 0 <= j < i
      ensures artifacts[j].producer != artifacts[i].producer || artifacts[j].attempt != artifacts[i].attempt
    {
      assert artifacts[j] in artifacts[..i];
    }
  }

  method Newest(attempts: map<nat, Artifact>) returns (n: nat)
    requires attempts != map[]
    ensures n in attempts && forall k :: k in attempts ==> k <= n
  {
    n :| n in attempts;
    var left: set<nat> := attempts.Keys;
    left := left - {n};
    while left != {}
      invariant n in attempts && forall k :: k in left ==> k in attempts
      invariant forall k :: k in attempts && k !in left ==> k <= n
      decreases left
    {
      var k :| k in left;
      left := left - {k};
      if k > n {
        n := k;
      }
    }
  }

  lemma {:induction false} NewestInTable(req: Request, artifacts: seq<Artifact>, table: Candidates, p: Producer, n: nat)
    requires req.count >= 0 && Tabulates(req, artifacts, table) && p in table
    requires n in table[p] && forall k :: k in table[p] ==> k <= n
    ensures IsNewest(artifacts, p, table[p][n])
    ensures forall a :: IsNewest(artifacts, p, a) ==> a == table[p][n]
  {
  }

  /** The one newest artifact of the `k`-th producer, and nothing is wrong with it. */
  ghost predicate IsChoice(req: Request, artifacts: seq<Artifact>, k: nat, a: Artifact)
    requires req.count >= 0 && k < |Producers(req)|
  {
    && IsNewest(artifacts, Producers(req)[k], a)
    && (forall b :: IsNewest(artifacts, Producers(req)[k], b) ==> b == a)
    && ArtifactFault(req, Producers(req)[k], a).None?
  }

  /** The artifact chosen for each producer so far is the only one that could be, and passed its checks. */
  ghost predicate ChosenSoFar(req: Request, artifacts: seq<Artifact>, chosen: seq<Artifact>)
    requires req.count >= 0
  {
    |chosen| <= |Producers(req)| && forall k :: 0 <= k < |chosen| ==> IsChoice(req, artifacts, k, chosen[k])
  }

  /** No choice of newest artifacts passes at position `k`. */
  ghost predicate Blocked(req: Request, artifacts: seq<Artifact>, k: nat)
    requires req.count >= 0 && k < |Producers(req)|
  {
    forall a :: IsNewest(artifacts, Producers(req)[k], a) ==> ArtifactFault(req, Producers(req)[k], a).Some?
  }

  lemma {:induction false} BlockedRefuses(req: Request, artifacts: seq<Artifact>, k: nat)
    requires req.count >= 0 && k < |Producers(req)| && Blocked(req, artifacts, k)
    ensures !Accepts(req, artifacts)
  {
    forall chosen ensures !AcceptsWith(req, artifacts, chosen) {
      if AcceptsWith(req, artifacts, chosen) {
        AcceptedIsNotBlocked(req, artifacts, chosen, k);
      }
    }
  }

  lemma {:induction false} AcceptedIsNotBlocked(req: Request, artifacts: seq<Artifact>, chosen: seq<Artifact>, k: nat)
    requires AcceptsWith(req, artifacts, chosen) && k < |chosen|
    ensures !Blocked(req, artifacts, k)
  {
    assert IsNewest(artifacts, Producers(req)[k], chosen[k]);
  }

  /** The newest artifact of one producer, or the reason why nothing can be accepted. */
  method ChooseOne(req: Request, ghost artifacts: seq<Artifact>, table: Candidates, k: nat)
    returns (r: Result<Artifact, Fault>)
    requires req.count >= 0 && Tabulates(req, artifacts, table) && k < |Producers(req)|
    ensures r.Ok? ==> IsChoice(req, artifacts, k, r.value)
    ensures r.Err? ==> !Accepts(req, artifacts)
  {
    var p := Producers(req)[k];
    assert p in Producers(req);
    if table[p] == map[] {
      EmptyBlocks(req, artifacts, table, k);
      BlockedRefuses(req, artifacts, k);
      return Err(MissingProducer);
    }
    var n := Newest(table[p]);
    NewestInTable(req, artifacts, table, p, n);
    var fault := ArtifactFault(req, p, table[p][n]);
    if fault.Some? {
      assert Blocked(req, artifacts, k);
      BlockedRefuses(req, artifacts, k);
      return Err(fault.value);
    }
    return Ok(table[p][n]);
  }

  method ChooseNewest(req: Request, ghost artifacts: seq<Artifact>, table: Candidates)
    returns (r: Result<seq<Artifact>, Fault>)
    requires req.count >= 0 && Tabulates(req, artifacts, table)
    ensures r.Ok? ==> |r.value| == |Producers(req)| && ChosenSoFar(req, artifacts, r.value)
    ensures r.Err? ==> !Accepts(req, artifacts)
  {
    var chosen: seq<Artifact> := [];
    for k := 0 to |Producers(req)|
      invariant |chosen| == k && ChosenSoFar(req, artifacts, chosen)
    {
      var one := ChooseOne(req, artifacts, table, k);
      if one.Err? {
        return Err(one.error);
      }
      chosen := chosen + [one.value];
    }
    return Ok(chosen);
  }

  lemma {:induction false} EmptyBlocks(req: Request, artifacts: seq<Artifact>, table: Candidates, k: nat)
    requires req.count >= 0 && Tabulates(req, artifacts, table) && k < |Producers(req)|
    requires Producers(req)[k] in table && table[Producers(req)[k]] == map[]
    ensures Blocked(req, artifacts, k)
  {
    assert forall a :: a in artifacts ==> a.producer != Some(Producers(req)[k]);
  }

  lemma {:induction false} OnlyChoice(req: Request, artifacts: seq<Artifact>, chosen: seq<Artifact>)
    requires req.count >= 0 && |chosen| == |Producers(req)| && ChosenSoFar(req, artifacts, chosen)
    ensures Accepts(req, artifacts) <==> AcceptsWith(req, artifacts, chosen)
  {
    forall other | AcceptsWith(req, artifacts, other) ensures other == chosen {
      forall k | 0 <= k < |other| ensures other[k] == chosen[k] {
        assert IsNewest(artifacts, Producers(req)[k], other[k]);
      }
    }
  }

  /** Each chosen artifact carries a digest: what its own checks have established. */
  ghost predicate Digested(chosen: seq<Artifact>) {
    forall k :: 0 <= k < |chosen| ==> DigestOf(chosen[k]).Some?
  }

  method CollectUnion(chosen: seq<Artifact>) returns (selected: seq<string>, digests: set<string>)
    requires Digested(chosen)
    ensures selected == WholeUnion(chosen)
    ensures forall d :: d in digests <==> exists k :: 0 <= k < |chosen| && DigestOf(chosen[k]) == Some(d)
  {
    selected, digests := [], {};
    for k := 0 to |chosen|
      invariant selected == Union(chosen, 0, k)
      invariant forall d :: d in digests <==> exists j :: 0 <= j < k && DigestOf(chosen[j]) == Some(d)
    {
      digests := digests + {DigestOf(chosen[k]).value};
      selected := selected + Ids(chosen[k]);
    }
  }

  lemma {:induction false} OneDigest(chosen: seq<Artifact>, digests: set<string>, d: string)
    requires chosen != [] && Digested(chosen)
    requires forall x :: x in digests <==> exists k :: 0 <= k < |chosen| && DigestOf(chosen[k]) == Some(x)
    ensures digests == {d} <==> forall k :: 0 <= k < |chosen| ==> DigestOf(chosen[k]) == Some(d)
  {
    if digests == {d} {
      forall k | 0 <= k < |chosen| ensures DigestOf(chosen[k]) == Some(d) {
        assert DigestOf(chosen[k]).value in digests;
      }
    }
    if forall k :: 0 <= k < |chosen| ==> DigestOf(chosen[k]) == Some(d) {
      assert DigestOf(chosen[0]) == Some(d);
      assert digests == {d};
    }
  }

  method AnyMisassigned(chosen: seq<Artifact>, count: nat, a: map<string, nat>) returns (bad: bool)
    requires count <= |chosen| && forall k, id :: 0 <= k < count && id in Ids(chosen[k]) ==> id in a
    ensures bad <==> exists k, id :: 0 <= k < count && id in Ids(chosen[k]) && a[id] != k
  {
    for k := 0 to count
      invariant forall j, id :: 0 <= j < k && id in Ids(chosen[j]) ==> a[id] == j
    {
      var group := Ids(chosen[k]);
      for i := 0 to |group|
        invariant forall h :: 0 <= h < i ==> a[group[h]] == k
      {
        if a[group[i]] != k {
          return true;
        }
      }
    }
    return false;
  }

  lemma {:induction false} PrefixDistinct(chosen: seq<Artifact>, lo: nat)
    requires lo <= |chosen| && Distinct(WholeUnion(chosen))
    ensures Distinct(Union(chosen, 0, lo))
  {
    UnionPrefix(chosen, lo, |chosen|);
    var all, part := WholeUnion(chosen), Union(chosen, 0, lo);
    forall i, j | 0 <= i < j < |part| ensures part[i] != part[j] {
      assert part[i] == all[i] && part[j] == all[j];
    }
  }

  lemma {:induction false} UnionPrefix(chosen: seq<Artifact>, lo: nat, hi: nat)
    requires lo <= hi <= |chosen|
    ensures Union(chosen, 0, lo) <= Union(chosen, 0, hi)
  {
    if lo < hi { UnionPrefix(chosen, lo, hi - 1); }
  }

  /** The assignment is a function of the ids, so checking the computed one decides the matter. */
  lemma {:induction false} ComputedAssignmentDecides(req: Request, chosen: seq<Artifact>, a: map<string, nat>)
    requires 0 <= req.count <= |chosen| && IsAssignment(Union(chosen, 0, req.count), req.count, req.profile, a)
    ensures WellAssigned(req, chosen) <==> AssignedBy(req, chosen, a)
  {
    forall b | AssignedBy(req, chosen, b) ensures b == a {
      var ids := Union(chosen, 0, req.count);
      AssignmentIgnoresOrder(ids, ids, req.count, req.profile, a, b);
    }
  }

  lemma {:induction false} UnionIsAssigned(req: Request, chosen: seq<Artifact>, a: map<string, nat>)
    requires 0 <= req.count <= |chosen| && IsAssignment(Union(chosen, 0, req.count), req.count, req.profile, a)
    ensures forall k, id :: 0 <= k < req.count && id in Ids(chosen[k]) ==> id in a
  {
    forall k, id | 0 <= k < req.count && id in Ids(chosen[k]) ensures id in a {
      UnionMembers(chosen, 0, req.count, id);
    }
  }

  method CheckUnion(req: Request, chosen: seq<Artifact>) returns (fault: Option<Fault>)
    requires 1 <= req.count <= |chosen| && Digested(chosen)
    ensures fault.None? <==> UnionOk(req, chosen)
  {
    var selected, digests := CollectUnion(chosen);
    var expected := CollectionDigest(req.digest, selected);
    Pigeonhole(selected);
    OneDigest(chosen, digests, expected);
    if |selected| != |Elements(selected)| || digests != {expected} {
      return Some(BadUnion);
    }
    var ordinary := Union(chosen, 0, req.count);
    PrefixDistinct(chosen, req.count);
    var assignment := OrdinaryAssignment(ordinary, req.count, req.profile);
    var a := assignment.value;
    ComputedAssignmentDecides(req, chosen, a);
    UnionIsAssigned(req, chosen, a);
    var bad := AnyMisassigned(chosen, req.count, a);
    return if bad then Some(Misassigned) else None;
  }

  /** `validate_long_run_shards` */
  method ValidateShards(req: Request, artifacts: seq<Artifact>) returns (r: Result<seq<Artifact>, Fault>)
    ensures r.Ok? <==> Accepts(req, artifacts)
    ensures r.Ok? ==> AcceptsWith(req, artifacts, r.value)
  {
    if req.count < 1 || (req.python != "3.12" && req.python != "3.13") {
      return Err(BadRequest);
    }
    if req.runId.None? {
      return Err(NoRunIdentity);
    }
    var table := TabulateCandidates(req, artifacts);
    if table.Err? {
      return Err(table.error);
    }
    var chosen := ChooseNewest(req, artifacts, table.value);
    if chosen.Err? {
      return Err(chosen.error);
    }
    OnlyChoice(req, artifacts, chosen.value);
    ChosenAreDigested(req, artifacts, chosen.value);
    var fault := CheckUnion(req, chosen.value);
    if fault.Some? {
      return Err(fault.value);
    }
    if req.python == "3.13" && !req.combineOk {
      return Err(BadCoverage);
    }
    return Ok(chosen.value);
  }

  lemma {:induction false} ChosenAreDigested(req: Request, artifacts: seq<Artifact>, chosen: seq<Artifact>)
    requires req.count >= 0 && ChosenSoFar(req, artifacts, chosen)
    ensures Digested(chosen)
  {
    forall k | 0 <= k < |chosen| ensures DigestOf(chosen[k]).Some? {
      assert ArtifactFault(req, Producers(req)[k], chosen[k]).None?;
    }
  }
}
