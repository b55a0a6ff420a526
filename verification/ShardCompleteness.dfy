/** Honest producers of one collection are always accepted. */
module ShardCompleteness {
  import opened Common
  import opened Sorting
  import opened ShardAssignment
  import opened ShardEvidence
  import opened ShardValidation

  /** `a` is what producer `p` publishes after a green run over some ordering of `collection`. */
  ghost predicate ProducedFrom(req: Request, collection: seq<string>, p: Producer, a: Artifact) {
    && a.attempt.Some? && a.manifest.Some? && a.manifest.value.exitStatus == Some(0)
    && exists ids, built, passed ::
         && multiset(ids) == multiset(collection)
         && IsBuilt(Host(req.commit, req.runId, a.attempt, Some(JobOf(p)), req.python),
                    req.profile, ids, req.cases, p, req.count, req.digest, built)
         && Finalize(built, 0, passed, req.cases) == Ok(a.manifest.value)
  }

  /** What is left of that once build and finalization are spelled out. */
  ghost predicate Green(req: Request, collection: seq<string>, p: Producer, a: Artifact, ids: seq<string>) {
    && a.attempt.Some? && a.manifest.Some? && multiset(ids) == multiset(collection)
    && Distinct(ids) && (forall id :: id in CaseIds(req.cases) ==> id in ids)
    && var m := a.manifest.value;
       && IdentityOk(req, p, a.attempt.value, m) && m.exitStatus == Some(0) && m.nodeids.Some?
       && (p.Proof? ==> m.proofCallPassed == Some(true))
       && m.digest == Some(CollectionDigest(req.digest, collection))
       && req.count >= 1 && IsSelection(ids, req.cases, p, req.count, req.profile, m.nodeids.value)
  }

  lemma {:induction false} ProducedIsGreen(req: Request, collection: seq<string>, p: Producer, a: Artifact)
    requires ProducedFrom(req, collection, p, a) && req.runId.Some?
    ensures exists ids :: Green(req, collection, p, a, ids)
  {
    assert |"ordinary"| != |"proof"|;
    var ids, built, passed :|
      && multiset(ids) == multiset(collection)
      && IsBuilt(Host(req.commit, req.runId, a.attempt, Some(JobOf(p)), req.python),
                 req.profile, ids, req.cases, p, req.count, req.digest, built)
      && Finalize(built, 0, passed, req.cases) == Ok(a.manifest.value);
    StringOrder();
    SortComparesMultisets(ids, collection, StringLe);
    assert Green(req, collection, p, a, ids);
  }

  // ---- One assignment for all orderings ----

  lemma {:induction false} OrdinaryRespectsMultisets(ids: seq<string>, jds: seq<string>, cases: seq<Case>)
    requires multiset(ids) == multiset(jds)
    ensures multiset(OrdinaryOf(ids, cases)) == multiset(OrdinaryOf(jds, cases))
  {
    forall id ensures multiset(OrdinaryOf(ids, cases))[id] == multiset(OrdinaryOf(jds, cases))[id] {
      WhereCount(ids, x => !IsCaseId(cases, x), id);
      WhereCount(jds, x => !IsCaseId(cases, x), id);
    }
  }

  /** The ids of a shard, counted: its part of the collection under the assignment `a`. */
  ghost predicate HoldsPart(collection: seq<string>, cases: seq<Case>, a: map<string, nat>, i: nat, r: seq<string>) {
    forall id :: multiset(r)[id] ==
                 if !IsCaseId(cases, id) && id in a && a[id] == i then multiset(collection)[id] else 0
  }

  lemma {:induction false} ShardHoldsPart(
    collection: seq<string>, ids: seq<string>, cases: seq<Case>, a: map<string, nat>, i: nat, r: seq<string>)
    requires multiset(ids) == multiset(collection) && IsShard(ids, cases, a, i, r)
    ensures HoldsPart(collection, cases, a, i, r)
  {
    forall id ensures multiset(r)[id] ==
                      if !IsCaseId(cases, id) && id in a && a[id] == i then multiset(collection)[id] else 0
    {
      WhereCount(OrdinaryOf(ids, cases), x => x in a && a[x] == i, id);
      WhereCount(ids, x => !IsCaseId(cases, x), id);
    }
  }

  lemma {:induction false} GreenShard(
    req: Request, collection: seq<string>, i: nat, x: Artifact, ids: seq<string>, a: map<string, nat>)
    requires Green(req, collection, Ordinary(i), x, ids)
    requires IsAssignment(OrdinaryOf(collection, req.cases), req.count, req.profile, a)
    ensures HoldsPart(collection, req.cases, a, i, Ids(x))
  {
    var r := Ids(x);
    var b :| IsAssignment(OrdinaryOf(ids, req.cases), req.count, req.profile, b) && IsShard(ids, req.cases, b, i, r);
    OrdinaryRespectsMultisets(ids, collection, req.cases);
    AssignmentIgnoresOrder(OrdinaryOf(ids, req.cases), OrdinaryOf(collection, req.cases), req.count, req.profile, b, a);
    ShardHoldsPart(collection, ids, req.cases, a, i, r);
  }

  lemma {:induction false} SomeAssignment(req: Request, collection: seq<string>, x: Artifact, ids: seq<string>)
    requires Green(req, collection, Ordinary(0), x, ids)
    ensures exists a :: IsAssignment(OrdinaryOf(collection, req.cases), req.count, req.profile, a)
  {
    var b :| IsAssignment(OrdinaryOf(ids, req.cases), req.count, req.profile, b)
        && IsShard(ids, req.cases, b, 0, Ids(x));
    OrdinaryRespectsMultisets(ids, collection, req.cases);
    AssignmentRespectsMultisets(OrdinaryOf(ids, req.cases), OrdinaryOf(collection, req.cases), req.count,
        req.profile, b);
  }

  // ---- The union is the collection ----

  /** Every producer's part, under one assignment. */
  ghost predicate Parts(req: Request, collection: seq<string>, chosen: seq<Artifact>, a: map<string, nat>) {
    && 1 <= req.count && |chosen| == req.count + |req.cases|
    && IsAssignment(OrdinaryOf(collection, req.cases), req.count, req.profile, a)
    && (forall k :: 0 <= k < req.count ==> HoldsPart(collection, req.cases, a, k, Ids(chosen[k])))
    && (forall k :: req.count <= k < |chosen| ==> Ids(chosen[k]) == [CaseIds(req.cases)[k - req.count]])
  }

  lemma {:induction false} TallyNone(chosen: seq<Artifact>, lo: nat, hi: nat, id: string)
    requires lo <= hi <= |chosen| && forall k :: lo <= k < hi ==> multiset(Ids(chosen[k]))[id] == 0
    ensures Tally(chosen, lo, hi, id) == 0
  {
    if lo < hi { TallyNone(chosen, lo, hi - 1, id); }
  }

  lemma {:induction false} TallyOnly(chosen: seq<Artifact>, hi: nat, id: string, k: nat)
    requires k < hi <= |chosen| && forall j :: 0 <= j < hi && j != k ==> multiset(Ids(chosen[j]))[id] == 0
    ensures Tally(chosen, 0, hi, id) == multiset(Ids(chosen[k]))[id]
  {
    if k == hi - 1 { TallyNone(chosen, 0, hi - 1, id); } else { TallyOnly(chosen, hi - 1, id, k); }
  }

  lemma {:induction false} CaseTally(
    req: Request, collection: seq<string>, chosen: seq<Artifact>, a: map<string, nat>, k: nat)
    requires Parts(req, collection, chosen, a) && CatalogOk(req.cases) && k < |req.cases|
    ensures Tally(chosen, 0, |chosen|, req.cases[k].nodeid) == 1
  {
    var id, at := req.cases[k].nodeid, req.count + k;
    assert Ids(chosen[at]) == [id];
    forall j | 0 <= j < |chosen| && j != at ensures multiset(Ids(chosen[j]))[id] == 0 {
      if j < req.count {
        assert HoldsPart(collection, req.cases, a, j, Ids(chosen[j]));
      } else {
        assert req.cases[j - req.count].nodeid != id;
        assert Ids(chosen[j]) == [req.cases[j - req.count].nodeid];
      }
    }
    TallyOnly(chosen, |chosen|, id, at);
  }

  lemma {:induction false} OrdinaryTally(
    req: Request, collection: seq<string>, chosen: seq<Artifact>, a: map<string, nat>, id: string)
    requires Parts(req, collection, chosen, a) && !IsCaseId(req.cases, id)
    ensures Tally(chosen, 0, |chosen|, id) == multiset(collection)[id]
  {
    forall j | req.count <= j < |chosen| ensures multiset(Ids(chosen[j]))[id] == 0 {
      assert Ids(chosen[j]) == [req.cases[j - req.count].nodeid];
    }
    WhereMembers(collection, x => !IsCaseId(req.cases, x), id);
    if id in a {
      AssignedInRange(OrdinaryOf(collection, req.cases), req.count, req.profile, a, id);
      var k := a[id];
      forall j | 0 <= j < req.count ensures multiset(Ids(chosen[j]))[id] == if j == k
          then multiset(collection)[id] else 0 {
        assert HoldsPart(collection, req.cases, a, j, Ids(chosen[j]));
      }
      TallyOnly(chosen, |chosen|, id, k);
    } else {
      assert id !in collection;
      forall j | 0 <= j < req.count ensures multiset(Ids(chosen[j]))[id] == 0 {
        assert HoldsPart(collection, req.cases, a, j, Ids(chosen[j]));
      }
      TallyNone(chosen, 0, |chosen|, id);
    }
  }

  lemma {:induction false} AssignedInRange(ids: seq<string>, count: nat, p: Profile, a: map<string, nat>, id: string)
    requires IsAssignment(ids, count, p, a) && id in a
    ensures a[id] < count
  {
    OrderedMembers(ids, p);
    var order := Ordered(ids, p);
    var j :| 0 <= j < |order| && order[j] == id;
    assert Least(Places(order, a), Weights(order, p), j, count, Places(order, a)[j]);
  }

  lemma {:induction false} UnionIsCollection(
    req: Request, collection: seq<string>, chosen: seq<Artifact>, a: map<string, nat>)
    requires Parts(req, collection, chosen, a) && CatalogOk(req.cases) && Distinct(collection)
    requires forall id :: id in CaseIds(req.cases) ==> id in collection
    ensures multiset(WholeUnion(chosen)) == multiset(collection)
  {
    forall id ensures multiset(WholeUnion(chosen))[id] == multiset(collection)[id] {
      UnionTally(chosen, 0, |chosen|, id);
      CollectionTally(req, collection, chosen, a, id);
    }
  }

  lemma {:induction false} CollectionTally(
    req: Request, collection: seq<string>, chosen: seq<Artifact>, a: map<string, nat>, id: string)
    requires Parts(req, collection, chosen, a) && CatalogOk(req.cases) && Distinct(collection)
    requires forall x :: x in CaseIds(req.cases) ==> x in collection
    ensures Tally(chosen, 0, |chosen|, id) == multiset(collection)[id]
  {
    if IsCaseId(req.cases, id) {
      var k :| 0 <= k < |req.cases| && req.cases[k].nodeid == id;
      CaseTally(req, collection, chosen, a, k);
      assert CaseIds(req.cases)[k] in CaseIds(req.cases);
      CountOnce(collection, id);
      assert id in collection;
    } else {
      OrdinaryTally(req, collection, chosen, a, id);
    }
  }

  lemma {:induction false} DistinctIsCounted(ids: seq<string>, jds: seq<string>)
    requires Distinct(ids) && multiset(ids) == multiset(jds)
    ensures Distinct(jds)
  {
    assert |multiset(ids)| == |multiset(jds)|;
    Pigeonhole(ids);
    Pigeonhole(jds);
    assert Elements(ids) == Elements(jds) by {
      forall id ensures id in ids <==> id in jds { assert id in multiset(ids) <==> id in multiset(jds); }
    }
  }

  // ---- Acceptance ----

  lemma {:induction false} ShardNotEmpty(
    req: Request, collection: seq<string>, a: map<string, nat>, i: nat, r: seq<string>)
    requires HoldsPart(collection, req.cases, a, i, r) && Positive(req.profile) && req.count >= 0
    requires IsAssignment(OrdinaryOf(collection, req.cases), req.count, req.profile, a)
    requires i < req.count <= |OrdinaryOf(collection, req.cases)|
    ensures r != []
  {
    var ordinary := OrdinaryOf(collection, req.cases);
    AssignmentUsesEveryShard(ordinary, req.count, req.profile, a, i);
    var id :| id in ordinary && a[id] == i;
    WhereMembers(collection, x => !IsCaseId(req.cases, x), id);
    assert multiset(collection)[id] >= 1;
    assert multiset(r)[id] >= 1;
  }

  lemma {:induction false} PartHasNoCase(
    collection: seq<string>, cases: seq<Case>, a: map<string, nat>, i: nat, r: seq<string>)
    requires HoldsPart(collection, cases, a, i, r)
    ensures forall id :: id in r ==> !IsCaseId(cases, id)
  {
    forall id | id in r ensures !IsCaseId(cases, id) { assert multiset(r)[id] >= 1; }
  }

  lemma {:induction false} GreenPasses(
    req: Request, collection: seq<string>, p: Producer, x: Artifact, ids: seq<string>, a: map<string, nat>)
    requires Green(req, collection, p, x, ids) && Positive(req.profile)
    requires p in Producers(req) && (req.python == "3.13" ==> x.coverageOk)
    requires IsAssignment(OrdinaryOf(collection, req.cases), req.count, req.profile, a)
    requires req.count <= |OrdinaryOf(collection, req.cases)|
    ensures ArtifactFault(req, p, x).None?
    ensures p.Ordinary? ==> HoldsPart(collection, req.cases, a, p.index, Ids(x))
    ensures p.Proof? ==> Ids(x) == [CaseIds(req.cases)[p.entry]]
  {
    if p.Ordinary? {
      GreenShard(req, collection, p.index, x, ids, a);
      ShardNotEmpty(req, collection, a, p.index, Ids(x));
      PartHasNoCase(collection, req.cases, a, p.index, Ids(x));
    }
  }

  lemma {:induction false} PartsAreUnionOk(
    req: Request, collection: seq<string>, chosen: seq<Artifact>, a: map<string, nat>)
    requires Parts(req, collection, chosen, a) && CatalogOk(req.cases) && Distinct(collection)
    requires forall id :: id in CaseIds(req.cases) ==> id in collection
    requires forall k :: 0 <= k < |chosen| ==> DigestOf(chosen[k]) == Some(CollectionDigest(req.digest, collection))
    ensures UnionOk(req, chosen)
  {
    UnionIsCollection(req, collection, chosen, a);
    DistinctIsCounted(collection, WholeUnion(chosen));
    StringOrder();
    SortComparesMultisets(collection, WholeUnion(chosen), StringLe);
    PartsArePartitioned(req, collection, chosen, a);
    OrdinaryUnion(req, chosen, collection);
    AssignmentRespectsMultisets(
      OrdinaryOf(collection, req.cases), Union(chosen, 0, req.count), req.count, req.profile, a);
    PartsAgree(req, collection, chosen, a);
    assert AssignedBy(req, chosen, a);
  }

  lemma {:induction false} PartsArePartitioned(
    req: Request, collection: seq<string>, chosen: seq<Artifact>, a: map<string, nat>)
    requires Parts(req, collection, chosen, a)
    ensures Partitioned(req, chosen)
  {
    forall k | 0 <= k < req.count ensures forall id :: id in Ids(chosen[k]) ==> !IsCaseId(req.cases, id) {
      PartHasNoCase(collection, req.cases, a, k, Ids(chosen[k]));
    }
  }

  lemma {:induction false} PartsAgree(req: Request, collection: seq<string>, chosen: seq<Artifact>, a: map<string, nat>)
    requires Parts(req, collection, chosen, a)
    ensures forall k, id :: 0 <= k < req.count && id in Ids(chosen[k]) ==> id in a && a[id] == k
  {
    forall k, id | 0 <= k < req.count && id in Ids(chosen[k]) ensures id in a && a[id] == k {
      assert HoldsPart(collection, req.cases, a, k, Ids(chosen[k]));
      assert multiset(Ids(chosen[k]))[id] >= 1;
    }
  }

  /** All producers published green runs over orderings of one collection. */
  ghost predicate Honest(req: Request, collection: seq<string>, chosen: seq<Artifact>)
    requires req.count >= 0
  {
    && |chosen| == |Producers(req)|
    && (forall k :: 0 <= k < |chosen| ==> ProducedFrom(req, collection, Producers(req)[k], chosen[k]))
    && (req.python == "3.13" ==> forall k :: 0 <= k < |chosen| ==> chosen[k].coverageOk)
  }

  lemma {:induction false} HonestCollection(req: Request, collection: seq<string>, chosen: seq<Artifact>)
    requires RequestOk(req) && Honest(req, collection, chosen)
    ensures Distinct(collection) && forall id :: id in CaseIds(req.cases) ==> id in collection
    ensures exists a :: IsAssignment(OrdinaryOf(collection, req.cases), req.count, req.profile, a)
  {
    assert Producers(req)[0] == Ordinary(0);
    ProducedIsGreen(req, collection, Ordinary(0), chosen[0]);
    var ids :| Green(req, collection, Ordinary(0), chosen[0], ids);
    DistinctIsCounted(ids, collection);
    forall id | id in ids ensures id in collection { assert id in multiset(ids); assert id in multiset(collection); }
    SomeAssignment(req, collection, chosen[0], ids);
  }

  lemma {:induction false} HonestPasses(
    req: Request, collection: seq<string>, chosen: seq<Artifact>, a: map<string, nat>)
    requires RequestOk(req) && Honest(req, collection, chosen) && Positive(req.profile)
    requires IsAssignment(OrdinaryOf(collection, req.cases), req.count, req.profile, a)
    requires req.count <= |OrdinaryOf(collection, req.cases)|
    ensures forall k :: 0 <= k < |chosen| ==>
        chosen[k].attempt.Some? && ArtifactFault(req, Producers(req)[k], chosen[k]).None?
    ensures Parts(req, collection, chosen, a)
    ensures forall k :: 0 <= k < |chosen| ==> DigestOf(chosen[k]) == Some(CollectionDigest(req.digest, collection))
  {
    forall k | 0 <= k < |chosen|
      ensures chosen[k].attempt.Some? && ArtifactFault(req, Producers(req)[k], chosen[k]).None?
      ensures k < req.count ==> HoldsPart(collection, req.cases, a, k, Ids(chosen[k]))
      ensures req.count <= k ==> Ids(chosen[k]) == [CaseIds(req.cases)[k - req.count]]
      ensures DigestOf(chosen[k]) == Some(CollectionDigest(req.digest, collection))
    {
      assert Producers(req)[k] in Producers(req);
      HonestArtifact(req, collection, Producers(req)[k], chosen[k], a);
    }
  }

  /**
   If every producer's newest artifact is what a green run over some ordering of one collection
   publishes, and there are at least as many ordinary tests as shards, the union is accepted.
   */
  lemma {:induction false} Completeness(
    req: Request, artifacts: seq<Artifact>, chosen: seq<Artifact>, collection: seq<string>)
    requires RequestOk(req) && NamesOk(req, artifacts) && CatalogOk(req.cases) && Positive(req.profile)
    requires Honest(req, collection, chosen)
    requires forall k :: 0 <= k < |chosen| ==> IsNewest(artifacts, Producers(req)[k], chosen[k])
    requires req.count <= |OrdinaryOf(collection, req.cases)|
    requires req.python == "3.13" ==> req.combineOk
    ensures AcceptsWith(req, artifacts, chosen)
  {
    HonestCollection(req, collection, chosen);
    var a :| IsAssignment(OrdinaryOf(collection, req.cases), req.count, req.profile, a);
    HonestPasses(req, collection, chosen, a);
    PartsAreUnionOk(req, collection, chosen, a);
  }

  lemma {:induction false} HonestArtifact(
    req: Request, collection: seq<string>, p: Producer, x: Artifact, a: map<string, nat>)
    requires ProducedFrom(req, collection, p, x) && req.runId.Some? && Positive(req.profile)
    requires req.count >= 1 && p in Producers(req) && (req.python == "3.13" ==> x.coverageOk)
    requires IsAssignment(OrdinaryOf(collection, req.cases), req.count, req.profile, a)
    requires req.count <= |OrdinaryOf(collection, req.cases)|
    ensures ArtifactFault(req, p, x).None?
    ensures p.Ordinary? ==> HoldsPart(collection, req.cases, a, p.index, Ids(x))
    ensures p.Proof? ==> Ids(x) == [CaseIds(req.cases)[p.entry]]
    ensures DigestOf(x) == Some(CollectionDigest(req.digest, collection))
  {
    ProducedIsGreen(req, collection, p, x);
    var ids :| Green(req, collection, p, x, ids);
    GreenPasses(req, collection, p, x, ids, a);
  }

  lemma {:induction false} UnionLength(chosen: seq<Artifact>, hi: nat)
    requires hi <= |chosen| && forall k :: 0 <= k < hi ==> Ids(chosen[k]) != []
    ensures |Union(chosen, 0, hi)| >= hi
  {
    if hi > 0 { UnionLength(chosen, hi - 1); }
  }

  lemma {:induction false} NoEmptyShard(req: Request, artifacts: seq<Artifact>, chosen: seq<Artifact>)
    requires AcceptsWith(req, artifacts, chosen)
    ensures forall k :: 0 <= k < |chosen| ==> Ids(chosen[k]) != []
  {
    forall k | 0 <= k < |chosen| ensures Ids(chosen[k]) != [] {
      assert ArtifactFault(req, Producers(req)[k], chosen[k]).None?;
    }
  }

  /** The condition on the number of tests is exact: with fewer, some shard is empty and the union is refused. */
  lemma {:induction false} AcceptanceNeedsEnoughTests(
    req: Request, artifacts: seq<Artifact>, chosen: seq<Artifact>, collection: seq<string>)
    requires AcceptsWith(req, artifacts, chosen) && Injective(req.digest)
    requires DigestOf(chosen[0]) == Some(CollectionDigest(req.digest, collection))
    ensures req.count <= |OrdinaryOf(collection, req.cases)|
  {
    OneCollection(req, artifacts, chosen, 0, collection);
    AcceptedIsPartitioned(req, artifacts, chosen);
    OrdinaryUnion(req, chosen, collection);
    NoEmptyShard(req, artifacts, chosen);
    UnionLength(chosen, req.count);
    assert |multiset(OrdinaryOf(collection, req.cases))| == |multiset(Union(chosen, 0, req.count))|;
  }

  // ---- The exact condition ----

  ghost predicate Used(ids: seq<string>, a: map<string, nat>, k: nat) {
    exists id :: id in ids && id in a && a[id] == k
  }

  /** The `n` first shards hold a test each, so there are at least `n` tests. */
  lemma {:induction false} OneTestPerShard(ids: seq<string>, a: map<string, nat>, n: nat)
    requires forall k: nat :: k < n ==> Used(ids, a, k)
    ensures n <= |ids|
  {
    var picked := PickTests(ids, a, n);
    Pigeonhole(picked);
    Pigeonhole(ids);
    SubsetSize(Elements(picked), Elements(ids));
  }

  lemma {:induction false} SubsetSize(a: set<string>, b: set<string>)
    requires a <= b
    ensures |a| <= |b|
  {
    assert b == a + (b - a);
  }

  lemma {:induction false} PickTests(ids: seq<string>, a: map<string, nat>, n: nat) returns (picked: seq<string>)
    requires forall k: nat :: k < n ==> Used(ids, a, k)
    ensures |picked| == n && Distinct(picked)
    ensures forall k :: 0 <= k < n ==> picked[k] in ids && picked[k] in a && a[picked[k]] == k
  {
    if n == 0 {
      picked := [];
    } else {
      picked := PickTests(ids, a, n - 1);
      var k: nat := n - 1;
      assert Used(ids, a, k);
      var id :| id in ids && id in a && a[id] == k;
      picked := picked + [id];
    }
  }

  lemma {:induction false} HonestShards(
    req: Request, collection: seq<string>, chosen: seq<Artifact>, a: map<string, nat>)
    requires RequestOk(req) && Honest(req, collection, chosen)
    requires IsAssignment(OrdinaryOf(collection, req.cases), req.count, req.profile, a)
    requires forall k :: 0 <= k < |chosen| ==> Ids(chosen[k]) != []
    ensures forall k: nat :: k < req.count ==> Used(OrdinaryOf(collection, req.cases), a, k)
  {
    forall k: nat | k < req.count ensures Used(OrdinaryOf(collection, req.cases), a, k) {
      assert Producers(req)[k] == Ordinary(k);
      ProducedIsGreen(req, collection, Ordinary(k), chosen[k]);
      var ids :| Green(req, collection, Ordinary(k), chosen[k], ids);
      GreenShard(req, collection, k, chosen[k], ids, a);
      PartIsUsed(collection, req.cases, a, k, Ids(chosen[k]));
    }
  }

  lemma {:induction false} PartIsUsed(
    collection: seq<string>, cases: seq<Case>, a: map<string, nat>, k: nat, r: seq<string>)
    requires HoldsPart(collection, cases, a, k, r) && r != []
    ensures Used(OrdinaryOf(collection, cases), a, k)
  {
    assert multiset(r)[r[0]] >= 1;
    assert multiset(collection)[r[0]] >= 1;
    WhereMembers(collection, x => !IsCaseId(cases, x), r[0]);
  }

  lemma {:induction false} NewestIsUnique(req: Request, artifacts: seq<Artifact>, p: Producer, a: Artifact, b: Artifact)
    requires req.count >= 0 && NamesOk(req, artifacts) && IsNewest(artifacts, p, a) && IsNewest(artifacts, p, b)
    ensures a == b
  {
    var i :| 0 <= i < |artifacts| && artifacts[i] == a;
    var j :| 0 <= j < |artifacts| && artifacts[j] == b;
  }

  /**
   Over honest producers the verdict is decided by one number: their union is accepted exactly when there
   are at least as many ordinary tests as shards.
   */
  lemma {:induction false} HonestAcceptedIff(
    req: Request, artifacts: seq<Artifact>, chosen: seq<Artifact>, collection: seq<string>)
    requires RequestOk(req) && NamesOk(req, artifacts) && CatalogOk(req.cases) && Positive(req.profile)
    requires Honest(req, collection, chosen) && (req.python == "3.13" ==> req.combineOk)
    requires forall k :: 0 <= k < |chosen| ==> IsNewest(artifacts, Producers(req)[k], chosen[k])
    ensures Accepts(req, artifacts) <==> req.count <= |OrdinaryOf(collection, req.cases)|
  {
    if req.count <= |OrdinaryOf(collection, req.cases)| {
      Completeness(req, artifacts, chosen, collection);
    }
    if Accepts(req, artifacts) {
      var other :| AcceptsWith(req, artifacts, other);
      AcceptedAreChosen(req, artifacts, chosen, other);
      NoEmptyShard(req, artifacts, chosen);
      HonestNeedTests(req, chosen, collection);
    }
  }

  lemma {:induction false} HonestNeedTests(req: Request, chosen: seq<Artifact>, collection: seq<string>)
    requires RequestOk(req) && Honest(req, collection, chosen)
    requires forall k :: 0 <= k < |chosen| ==> Ids(chosen[k]) != []
    ensures req.count <= |OrdinaryOf(collection, req.cases)|
  {
    HonestCollection(req, collection, chosen);
    var a :| IsAssignment(OrdinaryOf(collection, req.cases), req.count, req.profile, a);
    HonestShards(req, collection, chosen, a);
    OneTestPerShard(OrdinaryOf(collection, req.cases), a, req.count);
  }

  lemma {:induction false} AcceptedAreChosen(
    req: Request, artifacts: seq<Artifact>, chosen: seq<Artifact>, other: seq<Artifact>)
    requires AcceptsWith(req, artifacts, other) && |chosen| == |Producers(req)|
    requires forall k :: 0 <= k < |chosen| ==> IsNewest(artifacts, Producers(req)[k], chosen[k])
    ensures chosen == other
  {
    forall k | 0 <= k < |chosen| ensures chosen[k] == other[k] {
      NewestIsUnique(req, artifacts, Producers(req)[k], chosen[k], other[k]);
    }
  }

  // ---- Two shards and one test ----

  /** A run over two shards, for any catalog; the collection is the catalog's cases and one more test `t`. */
  function OneTest(cases: seq<Case>, digest: seq<string> -> string): Request {
    Request(2, "3.12", Profile(1, map[], "p"), "c", Some("1"), 1, cases, digest, true)
  }

  function OneTestCollection(cases: seq<Case>, t: string): seq<string> { CaseIds(cases) + [t] }

  function OneTestSelection(cases: seq<Case>, t: string, p: Producer): seq<string> {
    if p.Proof? then (if p.entry < |cases| then [cases[p.entry].nodeid] else [])
    else if p.index == 0 then [t] else []
  }

  /** What producer `p` of such a run has built before its tests run. */
  function OneTestManifest(cases: seq<Case>, t: string, digest: seq<string> -> string, p: Producer): Manifest {
    Manifest(Some(4), Some(ALGORITHM), Some("p"), Some("c"), Some("1"), Some(1), Some("3.12"), Some(JobOf(p)),
             Some(PartitionOf(p)), Some(CaseOf(p, cases)), Some(CountOf(p, 2)), Some(IndexOf(p)),
             Some(CollectionDigest(digest, OneTestCollection(cases, t))), Some(OneTestSelection(cases, t, p)), None,
             None)
  }

  /** What it publishes when they pass. */
  function OneTestArtifact(cases: seq<Case>, t: string, digest: seq<string> -> string, p: Producer): Artifact {
    Artifact(true, Some(p), Some(1),
             Some(OneTestManifest(cases, t, digest, p).(
                  exitStatus := Some(0), proofCallPassed := if p.Proof? then Some(true) else None)), true)
  }

  function OneTestShards(cases: seq<Case>, t: string, digest: seq<string> -> string): (r: seq<Artifact>)
    ensures |r| == 2 + |cases|
    ensures forall k :: 0 <= k < |r| ==>
              r[k] == OneTestArtifact(cases, t, digest, Producers(OneTest(cases, digest))[k])
  {
    var ps := Producers(OneTest(cases, digest));
    seq(|ps|, k requires 0 <= k < |ps| => OneTestArtifact(cases, t, digest, ps[k]))
  }

  lemma {:induction false} OneTestAssigned(t: string)
    ensures IsAssignment([t], 2, Profile(1, map[], "p"), map[t := 0])
  {
    var p, a := Profile(1, map[], "p"), map[t := 0];
    assert [t][1..] == [] && Ordered([], p) == [];
    assert Ordered([t], p) == Insert(t, [], LongestFirst(p)) == [t];
    var place, ws := Places([t], a), Weights([t], p);
    assert place == [0] && Least(place, ws, 0, 2, 0);
  }

  /** Without the catalog's cases only the one test is left. */
  lemma {:induction false} OneTestOrdinary(ids: seq<string>, cases: seq<Case>, t: string)
    requires !IsCaseId(cases, t) && forall id :: id in ids ==> IsCaseId(cases, id)
    ensures OrdinaryOf(ids + [t], cases) == [t]
  {
    if ids == [] {
      assert [] + [t] == [t] && OrdinaryOf([t][1..], cases) == [];
    } else {
      assert (ids + [t])[1..] == ids[1..] + [t] && ids[0] in ids;
      OneTestOrdinary(ids[1..], cases, t);
    }
  }

  lemma {:induction false} OneTestIds(cases: seq<Case>, t: string)
    requires CatalogOk(cases) && !IsCaseId(cases, t)
    ensures Distinct(OneTestCollection(cases, t))
    ensures forall id :: id in CaseIds(cases) ==> id in OneTestCollection(cases, t)
    ensures OrdinaryOf(OneTestCollection(cases, t), cases) == [t]
  {
    var ids := CaseIds(cases);
    forall id | id in ids ensures IsCaseId(cases, id) {
      var k :| 0 <= k < |ids| && ids[k] == id;
      assert cases[k].nodeid == id;
    }
    OneTestOrdinary(ids, cases, t);
  }

  lemma {:induction false} OneTestSelected(cases: seq<Case>, t: string, p: Producer)
    requires CatalogOk(cases) && !IsCaseId(cases, t)
    requires if p.Ordinary? then p.index < 2 else p.entry < |cases|
    ensures IsSelection(OneTestCollection(cases, t), cases, p, 2, Profile(1, map[], "p"), OneTestSelection(cases, t, p))
  {
    if p.Ordinary? {
      var ids, a: map<string, nat> := OneTestCollection(cases, t), map[t := 0];
      OneTestIds(cases, t);
      OneTestAssigned(t);
      var mine := (id: string) => id in a && a[id] == p.index;
      assert Where([t][1..], mine) == [] && Where([t], mine) == if p.index == 0 then [t] else [];
      assert IsShard(ids, cases, a, p.index, OneTestSelection(cases, t, p));
    }
  }

  lemma {:induction false} OneTestFinalized(cases: seq<Case>, t: string, digest: seq<string> -> string, p: Producer)
    requires CatalogOk(cases) && (p.Proof? ==> p.entry < |cases|)
    ensures var passed := if p.Proof? then Some(true) else None;
            Finalize(OneTestManifest(cases, t, digest, p), 0, passed, cases) ==
            Ok(OneTestArtifact(cases, t, digest, p).manifest.value)
  {
    assert |"ordinary"| != |"proof"|;
    if p.Proof? {
      var k := CaseIndex(cases, cases[p.entry].name);
      assert k == p.entry;
    }
  }

  lemma {:induction false} OneTestProduced(cases: seq<Case>, t: string, digest: seq<string> -> string, p: Producer)
    requires CatalogOk(cases) && !IsCaseId(cases, t)
    requires if p.Ordinary? then p.index < 2 else p.entry < |cases|
    ensures ProducedFrom(OneTest(cases, digest), OneTestCollection(cases, t), p, OneTestArtifact(cases, t, digest, p))
  {
    var req, ids, built := OneTest(cases, digest), OneTestCollection(cases, t), OneTestManifest(cases, t, digest, p);
    OneTestIds(cases, t);
    OneTestSelected(cases, t, p);
    OneTestFinalized(cases, t, digest, p);
    assert IsBuilt(Host(req.commit, req.runId, Some(1), Some(JobOf(p)), req.python), req.profile, ids, cases, p,
                   req.count, req.digest, built);
  }

  lemma {:induction false} OneTestNames(cases: seq<Case>, t: string, digest: seq<string> -> string)
    ensures var req, shards := OneTest(cases, digest), OneTestShards(cases, t, digest);
            NamesOk(req, shards) && forall k :: 0 <= k < |shards| ==> IsNewest(shards, Producers(req)[k], shards[k])
  {
    var req, shards := OneTest(cases, digest), OneTestShards(cases, t, digest);
    forall k | 0 <= k < |shards| ensures NameOk(req, shards[k]) && IsNewest(shards, Producers(req)[k], shards[k]) {
      assert Producers(req)[k] in Producers(req) && shards[k] in shards;
    }
  }

  lemma {:induction false} OneTestHonest(cases: seq<Case>, t: string, digest: seq<string> -> string)
    requires CatalogOk(cases) && !IsCaseId(cases, t)
    ensures Honest(OneTest(cases, digest), OneTestCollection(cases, t), OneTestShards(cases, t, digest))
  {
    var req, shards := OneTest(cases, digest), OneTestShards(cases, t, digest);
    forall k | 0 <= k < |shards|
      ensures ProducedFrom(req, OneTestCollection(cases, t), Producers(req)[k], shards[k])
    {
      OneTestProduced(cases, t, digest, Producers(req)[k]);
    }
  }

  /** Whatever the catalog, two honest shards of one ordinary test are refused. */
  lemma {:induction false} OneTestTwoShards(cases: seq<Case>, t: string, digest: seq<string> -> string)
    requires CatalogOk(cases) && !IsCaseId(cases, t)
    ensures Honest(OneTest(cases, digest), OneTestCollection(cases, t), OneTestShards(cases, t, digest))
    ensures !Accepts(OneTest(cases, digest), OneTestShards(cases, t, digest))
  {
    var req, shards := OneTest(cases, digest), OneTestShards(cases, t, digest);
    OneTestHonest(cases, t, digest);
    OneTestNames(cases, t, digest);
    OneTestIds(cases, t);
    HonestAcceptedIff(req, shards, shards, OneTestCollection(cases, t));
  }
}
