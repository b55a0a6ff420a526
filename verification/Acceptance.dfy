/**
 Acceptance of a live run. Several checks look at one aspect each: the two branches, the identities,
 the number of calls, the output rows. Together they leave only one possibility: every branch
 assessed every input row exactly once, and every input row came out exactly once.
 */
module Acceptance {
  import opened Common
  import ReportSections

  /** The fields that identify a source row. */
  datatype Identity = Identity(colorName: string, hex: string)

  /** The approved output fields, and any other. */
  datatype FieldName =
    | ColorName | Hex | BlueAmount | BlueConfidence | BlueReason | RedAmount | RedConfidence | RedReason
    | OtherField(name: string)

  datatype LlmNode = LlmNode(id: string, fields: set<FieldName>)

  datatype RuntimeCall = RuntimeCall(node: string, identity: Identity)

  /** A value of an output row: integers and finite numbers apart from everything that is neither. */
  datatype Cell = Whole(n: int) | Number(r: real) | Text(s: string) | Unfit

  type OutputRow = map<FieldName, Cell>

  /** The run's own counts; `None` is a value that is not an integer. */
  datatype Accounting = Accounting(assessments: Option<int>, coalesces: Option<int>, successes: Option<int>,
                                   failures: Option<int>, pending: Option<int>, closed: bool)

  datatype Evidence = Evidence(nodes: seq<LlmNode>, calls: seq<RuntimeCall>, identities: seq<Identity>,
                               success: seq<OutputRow>, failures: nat, accounting: Accounting)

  const ROW_COUNT := 10
  const ASSESSMENTS := 20

  const BLUE := {BlueAmount, BlueConfidence, BlueReason}
  const RED := {RedAmount, RedConfidence, RedReason}

  const AMOUNTS := [BlueAmount, RedAmount]
  const CONFIDENCES := [BlueConfidence, RedConfidence]
  const REASONS := [BlueReason, RedReason]
  const APPROVED := {ColorName, Hex, BlueAmount, BlueConfidence, BlueReason, RedAmount, RedConfidence, RedReason}

  // ---- The exact cover ----

  /** Every pair of a node and an identity. */
  ghost function Pairs(node: string, identities: set<Identity>): set<RuntimeCall> {
    set x | x in identities :: RuntimeCall(node, x)
  }

  lemma {:induction false} PairsSize(node: string, identities: set<Identity>)
    ensures |Pairs(node, identities)| == |identities|
  {
    if identities != {} {
      var x :| x in identities;
      PairsSize(node, identities - {x});
      assert Pairs(node, identities) == Pairs(node, identities - {x}) + {RuntimeCall(node, x)};
    }
  }

  ghost function Covered(calls: seq<RuntimeCall>, node: string): set<Identity> {
    set c | c in calls && c.node == node :: c.identity
  }

  /** What the branch check and the call count look at. */
  ghost predicate BranchesCover(calls: seq<RuntimeCall>, nodes: set<string>, identities: set<Identity>) {
    && (set c | c in calls :: c.node) == nodes
    && forall node :: node in nodes ==> Covered(calls, node) == identities
  }

  ghost function AllPairs(nodes: set<string>, identities: set<Identity>): set<RuntimeCall> {
    set node, x | node in nodes && x in identities :: RuntimeCall(node, x)
  }

  lemma {:induction false} CoverIsPairs(calls: seq<RuntimeCall>, nodes: set<string>, identities: set<Identity>)
    requires identities != {}
    ensures BranchesCover(calls, nodes, identities) <==> Elements(calls) == AllPairs(nodes, identities)
  {
    var pairs := AllPairs(nodes, identities);
    if BranchesCover(calls, nodes, identities) {
      forall c | c in calls ensures c in pairs {
        assert c.node in (set d | d in calls :: d.node);
        assert c.identity in Covered(calls, c.node);
      }
      forall c | c in pairs ensures c in calls {
        assert c.identity in Covered(calls, c.node);
      }
    }
    if Elements(calls) == pairs {
      var x :| x in identities;
      forall node | node in nodes ensures node in (set c | c in calls :: c.node) && Covered(calls, node) == identities {
        assert RuntimeCall(node, x) in pairs;
        forall y | y in identities ensures y in Covered(calls, node) {
          assert RuntimeCall(node, y) in pairs && RuntimeCall(node, y) in calls;
        }
        forall y | y in Covered(calls, node) ensures y in identities {
          assert RuntimeCall(node, y) in Elements(calls);
        }
      }
      forall c | c in calls ensures c.node in nodes { assert c in Elements(calls); }
    }
  }

  lemma {:induction false} AllPairsSplit(nodes: set<string>, node: string, identities: set<Identity>)
    requires node in nodes
    ensures |AllPairs(nodes, identities)| == |AllPairs(nodes - {node}, identities)| + |identities|
  {
    var rest, own := AllPairs(nodes - {node}, identities), Pairs(node, identities);
    PairsSize(node, identities);
    assert AllPairs(nodes, identities) == rest + own;
    assert rest !! own;
  }

  lemma {:induction false} AllPairsSize(nodes: set<string>, identities: set<Identity>)
    ensures |AllPairs(nodes, identities)| == |nodes| * |identities|
  {
    if nodes != {} {
      var node :| node in nodes;
      AllPairsSplit(nodes, node, identities);
      AllPairsSize(nodes - {node}, identities);
    }
  }

  /** Covering checks with twenty calls hold exactly when each pair has one call and there is no other. */
  lemma {:induction false} ExactCover(calls: seq<RuntimeCall>, nodes: set<string>, identities: set<Identity>)
    requires |nodes| == 2 && |identities| == ROW_COUNT
    ensures BranchesCover(calls, nodes, identities) && |calls| == ASSESSMENTS <==>
            multiset(calls) == multiset(AllPairs(nodes, identities))
  {
    CoverIsPairs(calls, nodes, identities);
    AllPairsSize(nodes, identities);
    Pigeonhole(calls);
    if Elements(calls) == AllPairs(nodes, identities) && |calls| == ASSESSMENTS {
      DistinctMultiset(calls);
    }
    if multiset(calls) == multiset(AllPairs(nodes, identities)) {
      assert forall c :: c in calls <==> c in multiset(calls);
      assert |calls| == |multiset(calls)|;
    }
  }

  // ---- The checks ----

  ghost predicate IdentitiesValid(identities: seq<Identity>) { |identities| == ROW_COUNT && Distinct(identities) }

  method CheckIdentities(identities: seq<Identity>) returns (r: Result<set<Identity>, string>)
    ensures r.Ok? <==> IdentitiesValid(identities)
    ensures r.Ok? ==> r.value == Elements(identities) && |r.value| == ROW_COUNT
  {
    Pigeonhole(identities);
    if |identities| != ROW_COUNT {
      return Err("input_identity_count");
    }
    if |Elements(identities)| != |identities| {
      return Err("duplicate_identity");
    }
    return Ok(Elements(identities));
  }

  function NodeIds(nodes: seq<LlmNode>): set<string> { set n | n in nodes :: n.id }

  function FieldSets(nodes: seq<LlmNode>): set<set<FieldName>> { set n | n in nodes :: n.fields }

  ghost predicate BranchesDistinct(nodes: seq<LlmNode>) {
    && |NodeIds(nodes)| == 2 && |nodes| >= 2
    && nodes[0].fields !! nodes[1].fields
    && FieldSets(nodes) == {BLUE, RED}
  }

  lemma {:induction false} TwoIdsTwoNodes(nodes: seq<LlmNode>)
    ensures |NodeIds(nodes)| <= |nodes|
  {
    if nodes != [] {
      var front := nodes[..|nodes| - 1];
      TwoIdsTwoNodes(front);
      assert nodes == front + [nodes[|nodes| - 1]];
      assert NodeIds(nodes) == NodeIds(front) + {nodes[|nodes| - 1].id};
    }
  }

  /** The branch check: two branches, one blue and one red, each covering all input rows. */
  method CheckBranches(evidence: Evidence) returns (err: Option<string>)
    ensures err.None? <==>
            && BranchesDistinct(evidence.nodes)
            && IdentitiesValid(evidence.identities)
            && BranchesCover(evidence.calls, NodeIds(evidence.nodes), Elements(evidence.identities))
  {
    var nodes := evidence.nodes;
    if |NodeIds(nodes)| != 2 {
      return Some("two_distinct_llm_nodes");
    }
    TwoIdsTwoNodes(nodes);
    if !(nodes[0].fields !! nodes[1].fields) {
      return Some("two_distinct_llm_nodes");
    }
    if nodes[0].fields + nodes[1].fields != BLUE + RED {
      DisjointColours(nodes);
      return Some("two_distinct_llm_nodes");
    }
    if FieldSets(nodes) != {BLUE, RED} {
      return Some("two_distinct_llm_nodes");
    }
    if (set c | c in evidence.calls :: c.node) != NodeIds(nodes) {
      return Some("two_distinct_llm_nodes");
    }
    var identities := CheckIdentities(evidence.identities);
    if identities.Err? {
      return Some(identities.error);
    }
    for i := 0 to |nodes|
      invariant forall j :: 0 <= j < i ==> Covered(evidence.calls, nodes[j].id) == Elements(evidence.identities)
    {
      var covered := set c | c in evidence.calls && c.node == nodes[i].id :: c.identity;
      if covered != identities.value {
        assert nodes[i].id in NodeIds(nodes);
        return Some("branch_missing_rows");
      }
    }
    return None;
  }

  /** Two disjoint field sets among the blue and the red one are both of them. */
  lemma {:induction false} DisjointColours(nodes: seq<LlmNode>)
    requires |nodes| >= 2 && nodes[0].fields !! nodes[1].fields
    ensures FieldSets(nodes) == {BLUE, RED} ==> nodes[0].fields + nodes[1].fields == BLUE + RED
  {
    if FieldSets(nodes) == {BLUE, RED} {
      assert nodes[0] in nodes && nodes[1] in nodes;
      assert nodes[0].fields in FieldSets(nodes) && nodes[1].fields in FieldSets(nodes);
      assert BlueAmount in BLUE && RedAmount in RED;
    }
  }

  predicate IsAmount(c: Cell) { c.Whole? && 0 <= c.n <= 100 }

  predicate IsConfidence(c: Cell) { (c.Whole? && 0 <= c.n <= 1) || (c.Number? && 0.0 <= c.r <= 1.0) }

  predicate IsReason(c: Cell) { c.Text? && !ReportSections.Blank(c.s) }

  /** The approved eight fields and no other, each with a value of its kind. */
  ghost predicate WellFormed(row: OutputRow) {
    && row.Keys == APPROVED
    && IsAmount(row[BlueAmount]) && IsAmount(row[RedAmount])
    && IsConfidence(row[BlueConfidence]) && IsConfidence(row[RedConfidence])
    && IsReason(row[BlueReason]) && IsReason(row[RedReason])
  }

  /** The identity of a row, if its identifying fields are texts. */
  function RowIdentity(row: OutputRow): Option<Identity> {
    if ColorName in row && Hex in row && row[ColorName].Text? && row[Hex].Text?
    then Some(Identity(row[ColorName].s, row[Hex].s)) else None
  }

  method CheckCells(row: OutputRow, fields: seq<FieldName>, fit: Cell -> bool) returns (ok: bool)
    requires forall f :: f in fields ==> f in row
    ensures ok <==> forall i :: 0 <= i < |fields| ==> fit(row[fields[i]])
  {
    for i := 0 to |fields|
      invariant forall j :: 0 <= j < i ==> fit(row[fields[j]])
    {
      if !fit(row[fields[i]]) {
        return false;
      }
    }
    return true;
  }

  method CheckRow(row: OutputRow) returns (err: Option<string>)
    ensures err.None? <==> WellFormed(row)
  {
    if row.Keys != APPROVED {
      return Some("field_contract_violation");
    }
    var amounts := CheckCells(row, AMOUNTS, IsAmount);
    if !amounts {
      return Some("amount_out_of_range");
    }
    var confidences := CheckCells(row, CONFIDENCES, IsConfidence);
    if !confidences {
      return Some("confidence_out_of_range");
    }
    var reasons := CheckCells(row, REASONS, IsReason);
    if !reasons {
      return Some("reason_empty");
    }
    assert IsAmount(row[AMOUNTS[0]]) && IsAmount(row[AMOUNTS[1]]);
    assert IsConfidence(row[CONFIDENCES[0]]) && IsConfidence(row[CONFIDENCES[1]]);
    assert IsReason(row[REASONS[0]]) && IsReason(row[REASONS[1]]);
    return None;
  }

  function RowIds(rows: seq<OutputRow>): (r: seq<Option<Identity>>)
    ensures |r| == |rows| && forall i :: 0 <= i < |r| ==> r[i] == RowIdentity(rows[i])
  {
    seq(|rows|, i requires 0 <= i < |rows| => RowIdentity(rows[i]))
  }

  /** The same identities, as rows would carry them. */
  function Known(identities: seq<Identity>): (r: seq<Option<Identity>>)
    ensures |r| == |identities| && forall i :: 0 <= i < |r| ==> r[i] == Some(identities[i])
  {
    seq(|identities|, i requires 0 <= i < |identities| => Some(identities[i]))
  }

  /** The rows are well formed and carry each input identity exactly once. */
  ghost predicate RowsExact(rows: seq<OutputRow>, identities: seq<Identity>) {
    && (forall i :: 0 <= i < |rows| ==> WellFormed(rows[i]))
    && multiset(RowIds(rows)) == multiset(Known(identities))
  }

  lemma {:induction false} SameIds(ids: seq<Option<Identity>>, identities: seq<Option<Identity>>)
    requires Distinct(identities)
    ensures multiset(ids) == multiset(identities) <==> Distinct(ids) && Elements(ids) == Elements(identities)
  {
    DistinctMultiset(identities);
    if Distinct(ids) { DistinctMultiset(ids); }
    if multiset(ids) == multiset(identities) {
      assert forall x :: x in ids <==> x in multiset(ids);
      assert forall x :: x in identities <==> x in multiset(identities);
      assert Elements(ids) == Elements(identities);
      assert |ids| == |multiset(ids)| == |identities|;
      Pigeonhole(ids);
      Pigeonhole(identities);
    }
  }

  lemma {:induction false} KnownIds(identities: seq<Identity>)
    requires Distinct(identities)
    ensures Distinct(Known(identities))
  {
  }

  /** The output check, row by row. */
  method CheckBusinessOutput(evidence: Evidence) returns (err: Option<string>)
    ensures err.None? <==>
            && evidence.failures == 0
            && IdentitiesValid(evidence.identities)
            && RowsExact(evidence.success, evidence.identities)
  {
    var rows := evidence.success;
    ghost var ids, known := RowIds(rows), Known(evidence.identities);
    if evidence.failures > 0 {
      return Some("unexpected_failures");
    }
    if |rows| != ROW_COUNT {
      assert multiset(ids) == multiset(known) ==> |multiset(ids)| == |known|;
      return Some("success_row_count");
    }
    var identities := CheckIdentities(evidence.identities);
    if identities.Err? {
      return Some(identities.error);
    }
    err := CheckRows(rows, Elements(Known(evidence.identities)));
    KnownIds(evidence.identities);
    SameIds(ids, known);
  }

  /** One row: its fields, and an identity that is known and not seen before. */
  method CheckNextRow(
    row: OutputRow, known: set<Option<Identity>>, seen: set<Option<Identity>>) returns (err: Option<string>)
    ensures err.None? <==> WellFormed(row) && RowIdentity(row) in known && RowIdentity(row) !in seen
  {
    err := CheckRow(row);
    if err.Some? {
      return;
    }
    var identity := RowIdentity(row);
    if identity !in known {
      return Some("unknown_business_identity");
    }
    if identity in seen {
      return Some("duplicate_identity");
    }
    return None;
  }

  lemma {:induction false} NextDistinct<T(!new)>(s: seq<T>, i: nat)
    requires i < |s| && Distinct(s[..i])
    ensures Elements(s[..i + 1]) == Elements(s[..i]) + {s[i]} && s[i] in Elements(s)
    ensures s[i] !in Elements(s[..i]) ==> Distinct(s[..i + 1])
    ensures s[i] in Elements(s[..i]) ==> !Distinct(s)
  {
    assert s[..i + 1] == s[..i] + [s[i]];
    if s[i] in Elements(s[..i]) {
      var j :| 0 <= j < i && s[..i][j] == s[i];
      assert s[j] == s[i];
    }
  }

  /** All rows: well formed, and each identity once. */
  method CheckRows(rows: seq<OutputRow>, known: set<Option<Identity>>) returns (err: Option<string>)
    ensures err.None? <==>
            && (forall i :: 0 <= i < |rows| ==> WellFormed(rows[i]))
            && Distinct(RowIds(rows)) && Elements(RowIds(rows)) == known
  {
    ghost var ids := RowIds(rows);
    var seen: set<Option<Identity>> := {};
    for i := 0 to |rows|
      invariant forall j :: 0 <= j < i ==> WellFormed(rows[j])
      invariant seen == Elements(ids[..i]) && Distinct(ids[..i])
    {
      NextDistinct(ids, i);
      err := CheckNextRow(rows[i], known, seen);
      if err.Some? {
        return;
      }
      seen := seen + {RowIdentity(rows[i])};
    }
    assert ids[..|rows|] == ids;
    if seen != known {
      return Some("business_identity_coverage");
    }
    return None;
  }

  /** The run closed with the expected counts. */
  ghost predicate BooksClosed(evidence: Evidence) {
    && evidence.accounting == Accounting(Some(ASSESSMENTS), Some(ROW_COUNT), Some(ROW_COUNT), Some(0), Some(0), true)
    && |evidence.calls| == ASSESSMENTS
  }

  method CheckAccounting(evidence: Evidence) returns (err: Option<string>)
    ensures err.None? <==> BooksClosed(evidence)
  {
    var books := evidence.accounting;
    if books.assessments != Some(ASSESSMENTS) || |evidence.calls| != ASSESSMENTS {
      return Some("assessment_count");
    }
    if books.coalesces != Some(ROW_COUNT) {
      return Some("coalesce_count");
    }
    if books.successes != Some(ROW_COUNT) {
      return Some("success_count");
    }
    if books.failures != Some(0) {
      return Some("failure_count");
    }
    if books.pending != Some(0) || !books.closed {
      return Some("nonterminal_accounting");
    }
    return None;
  }

  /** The checks of an acceptance that bear on calls, rows and counts, in the order they are made. */
  method Accept(evidence: Evidence) returns (err: Option<string>)
    ensures err.None? <==> Accepted(evidence)
  {
    err := CheckBranches(evidence);
    if err.Some? {
      return;
    }
    err := CheckBusinessOutput(evidence);
    if err.Some? {
      return;
    }
    err := CheckAccounting(evidence);
  }

  ghost predicate Accepted(evidence: Evidence) {
    && BranchesDistinct(evidence.nodes)
    && IdentitiesValid(evidence.identities)
    && BranchesCover(evidence.calls, NodeIds(evidence.nodes), Elements(evidence.identities))
    && evidence.failures == 0
    && RowsExact(evidence.success, evidence.identities)
    && BooksClosed(evidence)
  }

  /** Accepted evidence: one call for each branch and input row and no other call, and the output
      rows are the input rows in some order. */
  lemma {:induction false} AcceptedIsExact(evidence: Evidence)
    ensures Accepted(evidence) <==>
            && BranchesDistinct(evidence.nodes) && IdentitiesValid(evidence.identities) && evidence.failures == 0
            && multiset(evidence.calls) == multiset(AllPairs(NodeIds(evidence.nodes), Elements(evidence.identities)))
            && RowsExact(evidence.success, evidence.identities) && BooksClosed(evidence)
  {
    if BranchesDistinct(evidence.nodes) && IdentitiesValid(evidence.identities) {
      Pigeonhole(evidence.identities);
      ExactCover(evidence.calls, NodeIds(evidence.nodes), Elements(evidence.identities));
    }
  }

  /** The same, place by place: each pair of a branch and an input row has its one call. */
  lemma {:induction false} OneCallPerPair(evidence: Evidence, node: string, x: Identity)
    requires Accepted(evidence) && node in NodeIds(evidence.nodes) && x in evidence.identities
    ensures exists i :: 0 <= i < |evidence.calls| && evidence.calls[i] == RuntimeCall(node, x)
                        && forall j :: 0 <= j < |evidence.calls| && evidence.calls[j] == RuntimeCall(node, x) ==> j == i
  {
    AcceptedCalls(evidence);
    var calls := evidence.calls;
    assert RuntimeCall(node, x) in Elements(calls);
    var i :| 0 <= i < |calls| && calls[i] == RuntimeCall(node, x);
  }

  lemma {:induction false} AcceptedCalls(evidence: Evidence)
    requires Accepted(evidence)
    ensures Distinct(evidence.calls)
    ensures Elements(evidence.calls) == AllPairs(NodeIds(evidence.nodes), Elements(evidence.identities))
  {
    var ids := Elements(evidence.identities);
    Pigeonhole(evidence.identities);
    CoverIsPairs(evidence.calls, NodeIds(evidence.nodes), ids);
    AllPairsSize(NodeIds(evidence.nodes), ids);
    Pigeonhole(evidence.calls);
  }
}
