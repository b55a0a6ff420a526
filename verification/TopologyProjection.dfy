/**
 The projection of a pipeline document into a typed graph: edges are resolved through connection
 names, so the graph does not depend on how the author named or ordered things.
 */
module TopologyProjection {
  import opened Common
  import opened Sorting
  import opened TopologyMatch

  /** A JSON value. Truth values are numbers, as they are to Python's `==`; a text has the number it spells, if any. */
  datatype Value =
    | Null
    | Number(number: real)
    | Text(text: string, spelt: Option<real>)
    | Items(items: seq<Value>)
    | Entries(entries: map<string, Value>)

  datatype SourceSpec = SourceSpec(plugin: Option<string>, onSuccess: Option<string>)

  /**
   `routes` and `branches` are the values of the source's mappings, in order; labels do not matter.
   `literals` are the numbers that occur in the node's condition.
   */
  datatype NodeSpec = NodeSpec(
    nodeType: Option<string>,
    plugin: Option<string>,
    id: Option<string>,
    input: Option<string>,
    onSuccess: Option<string>,
    onError: Option<string>,
    routes: Option<seq<Option<string>>>,
    forkTo: seq<Option<string>>,
    branches: seq<Option<string>>,
    policy: Option<string>,
    merge: Option<string>,
    options: map<string, Value>,
    literals: seq<real>)

  /** `sinkName` is `None` when the document has no such key at all. */
  datatype OutputSpec = OutputSpec(sinkName: Option<Option<string>>, name: Option<string>, plugin: Option<string>)

  /** `source` is `None` when it is absent or empty. */
  datatype Doc = Doc(sources: seq<SourceSpec>, source: Option<SourceSpec>, nodes: seq<NodeSpec>,
      outputs: seq<OutputSpec>)

  /** Python's `str`, which spells an absent value out. */
  function Str(x: Option<string>): string { if x.None? then "None" else x.value }

  function Decimal(n: nat): string {
    if n < 10 then [('0' as int + n) as char] else Decimal(n / 10) + Decimal(n % 10)
  }

  function SourceOf(doc: Doc): SourceSpec {
    if doc.sources != [] then doc.sources[0]
    else if doc.source.Some? then doc.source.value
    else SourceSpec(None, None)
  }

  function OutputName(o: OutputSpec): string {
    if o.sinkName.Some? then Str(o.sinkName.value) else Str(o.name)
  }

  /** One extra under its key, or nothing. */
  function Extra(key: string, value: Option<string>): seq<(string, string)> {
    if value.Some? then [(key, value.value)] else []
  }

  /** The size of a fan, when there is one to speak of. */
  function FanCount(present: bool, size: nat): Option<string> { if present then Some(Decimal(size)) else None }

  function ForkCount(n: NodeSpec): Option<string> { FanCount(n.forkTo != [], |n.forkTo|) }

  function RouteCount(n: NodeSpec): Option<string> {
    if n.routes.None? then None else FanCount(true, |n.routes.value|)
  }

  function BranchCount(n: NodeSpec): Option<string> { FanCount(n.branches != [], |n.branches|) }

  function RawExtras(n: NodeSpec): seq<(string, string)> {
    Extra("policy", n.policy) + Extra("merge", n.merge) +
    Extra("fork_count", ForkCount(n)) + Extra("route_count", RouteCount(n)) + Extra("branch_count", BranchCount(n))
  }

  function NodeExtras(n: NodeSpec): seq<(string, string)> { Sort(RawExtras(n), PairLe) }

  function NodeOf(n: NodeSpec): TNode { TNode(Str(n.nodeType), n.plugin, NodeExtras(n)) }

  function OutputNode(o: OutputSpec): TNode { TNode("output", o.plugin, []) }

  // ---- Extras are exact ----

  lemma {:induction false} DecimalInjective(m: nat, n: nat)
    requires Decimal(m) == Decimal(n)
    ensures m == n
  {
    DecimalLength(m);
    DecimalLength(n);
    if m >= 10 && n >= 10 {
      var p, q := Decimal(m / 10), Decimal(n / 10);
      assert |Decimal(m % 10)| == |Decimal(n % 10)| == 1;
      assert p == Decimal(m)[..|Decimal(m)| - 1] && q == Decimal(n)[..|Decimal(n)| - 1];
      DecimalInjective(m / 10, n / 10);
      assert Decimal(m % 10)[0] == Decimal(m)[|Decimal(m)| - 1] == Decimal(n % 10)[0];
    }
  }

  lemma {:induction false} DecimalLength(n: nat)
    ensures |Decimal(n)| >= 1 && (|Decimal(n)| == 1 <==> n < 10)
  {
    if n >= 10 { DecimalLength(n / 10); }
  }

  function ExtraAt(n: NodeSpec, key: string): Option<string> {
    if key == "policy" then n.policy
    else if key == "merge" then n.merge
    else if key == "fork_count" then ForkCount(n)
    else if key == "route_count" then RouteCount(n)
    else if key == "branch_count" then BranchCount(n)
    else None
  }

  lemma {:induction false} ExtraMembers(n: NodeSpec, key: string, v: string)
    ensures (key, v) in RawExtras(n) <==> ExtraAt(n, key) == Some(v)
  {
    assert |"policy"| == 6 && |"merge"| == 5 && |"fork_count"| == 10 && |"route_count"| == 11 && |"branch_count"| == 12;
    var a, b := Extra("policy", n.policy) + Extra("merge", n.merge), Extra("fork_count", ForkCount(n));
    var c, d := Extra("route_count", RouteCount(n)), Extra("branch_count", BranchCount(n));
    assert RawExtras(n) == a + b + c + d;
  }

  lemma {:induction false} SameExtra(m: NodeSpec, n: NodeSpec, key: string)
    requires multiset(RawExtras(m)) == multiset(RawExtras(n))
    ensures ExtraAt(m, key) == ExtraAt(n, key)
  {
    var x, y := ExtraAt(m, key), ExtraAt(n, key);
    if x.Some? {
      ExtraMembers(m, key, x.value);
      ExtraMembers(n, key, x.value);
      assert (key, x.value) in multiset(RawExtras(m));
      assert (key, x.value) in multiset(RawExtras(n));
    }
    if y.Some? {
      ExtraMembers(m, key, y.value);
      ExtraMembers(n, key, y.value);
      assert (key, y.value) in multiset(RawExtras(n));
      assert (key, y.value) in multiset(RawExtras(m));
    }
  }

  lemma {:induction false} SameRawExtras(m: NodeSpec, n: NodeSpec)
    requires multiset(RawExtras(m)) == multiset(RawExtras(n))
    ensures m.policy == n.policy && m.merge == n.merge
    ensures ForkCount(m) == ForkCount(n) && RouteCount(m) == RouteCount(n) && BranchCount(m) == BranchCount(n)
  {
    SameExtra(m, n, "policy");
    SameExtra(m, n, "merge");
    SameExtra(m, n, "fork_count");
    SameExtra(m, n, "route_count");
    SameExtra(m, n, "branch_count");
  }

  lemma {:induction false} SortedExtras(m: NodeSpec, n: NodeSpec)
    ensures NodeExtras(m) == NodeExtras(n) <==>
            && m.policy == n.policy && m.merge == n.merge
            && ForkCount(m) == ForkCount(n) && RouteCount(m) == RouteCount(n) && BranchCount(m) == BranchCount(n)
  {
    StringOrder();
    SortComparesMultisets(RawExtras(m), RawExtras(n), PairLe);
    if NodeExtras(m) == NodeExtras(n) { SameRawExtras(m, n); }
  }

  function CountOf(xs: Option<seq<Option<string>>>): int { if xs.None? then -1 else |xs.value| }

  lemma {:induction false} SameFan(p: bool, i: nat, q: bool, j: nat)
    ensures FanCount(p, i) == FanCount(q, j) <==> p == q && (p ==> i == j)
  {
    if Decimal(i) == Decimal(j) { DecimalInjective(i, j); }
  }

  /** Two nodes have equal extras exactly when policy, merge and all fan counts agree. */
  lemma {:induction false} ExtrasExact(m: NodeSpec, n: NodeSpec)
    ensures NodeExtras(m) == NodeExtras(n) <==>
            && m.policy == n.policy && m.merge == n.merge
            && |m.forkTo| == |n.forkTo| && CountOf(m.routes) == CountOf(n.routes) && |m.branches| == |n.branches|
  {
    SortedExtras(m, n);
    SameFan(m.forkTo != [], |m.forkTo|, n.forkTo != [], |n.forkTo|);
    SameFan(m.branches != [], |m.branches|, n.branches != [], |n.branches|);
    if m.routes.Some? && n.routes.Some? { SameFan(true, |m.routes.value|, true, |n.routes.value|); }
  }

  // ---- What the projection means ----

  ghost function Mapped<A, B>(f: A -> B, s: seq<A>): (r: seq<B>)
    ensures |r| == |s| && forall i :: 0 <= i < |s| ==> r[i] == f(s[i])
  {
    seq(|s|, i requires 0 <= i < |s| => f(s[i]))
  }

  lemma {:induction false} MappedAlike<A, B>(f: A -> B, s: seq<A>, t: seq<A>)
    requires |s| == |t| && forall i :: 0 <= i < |s| ==> f(s[i]) == f(t[i])
    ensures Mapped(f, s) == Mapped(f, t)
  {
  }

  lemma {:induction false} MappedSnoc<A, B>(f: A -> B, s: seq<A>, i: nat)
    requires i < |s|
    ensures Mapped(f, s[..i + 1]) == Mapped(f, s[..i]) + [f(s[i])]
  {
  }

  /** Slot 0 is the source, then the nodes, then the outputs. */
  ghost function ProjectedNodes(doc: Doc): seq<TNode> {
    [TNode("source", SourceOf(doc).plugin, [])]
    + Mapped(NodeOf, doc.nodes) + Mapped(OutputNode, doc.outputs)
  }

  predicate Consumes(n: NodeSpec, conn: string) {
    n.input == Some(conn) || exists b :: b in n.branches && Str(b) == conn
  }

  ghost predicate LastOutputNamed(doc: Doc, j: int, conn: string) {
    && 0 <= j < |doc.outputs| && OutputName(doc.outputs[j]) == conn
    && forall k :: j < k < |doc.outputs| ==> OutputName(doc.outputs[k]) != conn
  }

  ghost predicate LastNodeWithId(doc: Doc, i: int, id: string) {
    && 0 <= i < |doc.nodes| && doc.nodes[i].id == Some(id)
    && forall k :: i < k < |doc.nodes| ==> doc.nodes[k].id != Some(id)
  }

  ghost predicate ConsumedAt(doc: Doc, conn: string, b: int) {
    1 <= b <= |doc.nodes| && Consumes(doc.nodes[b - 1], conn)
  }

  ghost predicate SunkAt(doc: Doc, conn: string, b: int) {
    LastOutputNamed(doc, b - 1 - |doc.nodes|, conn)
  }

  /** A value sent on `conn` arrives at slot `b`. */
  ghost predicate Leads(doc: Doc, conn: Option<string>, b: int) {
    && conn.Some? && conn.value != "discard"
    && (ConsumedAt(doc, conn.value, b) || SunkAt(doc, conn.value, b))
  }

  function UnlessFork(conns: seq<Option<string>>): seq<Option<string>> {
    if conns == [] then []
    else (if conns[0] == Some("fork") then [] else [conns[0]]) + UnlessFork(conns[1..])
  }

  /** The connections slot `a` sends on, for one type of edge. */
  function Links(doc: Doc, a: int, kind: string): seq<Option<string>> {
    if a == 0 then (if kind == "on_success" then [SourceOf(doc).onSuccess] else [])
    else if 1 <= a <= |doc.nodes| then NodeLinks(doc.nodes[a - 1], kind)
    else []
  }

  function NodeLinks(n: NodeSpec, kind: string): seq<Option<string>> {
    match kind
    case "on_success" => [n.onSuccess]
    case "on_error" => [n.onError]
    case "route" => if n.routes.Some? then UnlessFork(n.routes.value) else []
    case "fork" => n.forkTo
    case _ => []
  }

  ghost function CountLeads(doc: Doc, conns: seq<Option<string>>, b: int): nat {
    if conns == [] then 0 else (if Leads(doc, conns[0], b) then 1 else 0) + CountLeads(doc, conns[1..], b)
  }

  ghost predicate ProducedAt(doc: Doc, id: string, a: int) {
    LastNodeWithId(doc, a - 1, id)
  }

  /** Node `b` names node `a` as its input by id. */
  ghost predicate FedById(doc: Doc, a: int, b: int) {
    && 1 <= b <= |doc.nodes| && doc.nodes[b - 1].input.Some?
    && ProducedAt(doc, doc.nodes[b - 1].input.value, a)
  }

  /** How many parallel edges of one type run from `a` to `b`. */
  ghost function EdgeCount(doc: Doc, e: Edge): nat {
    CountLeads(doc, Links(doc, e.src, e.kind), e.dst) +
    (if e.kind == "on_success" && FedById(doc, e.src, e.dst) then 1 else 0)
  }

  ghost predicate IsProjection(doc: Doc, t: Topology) {
    && t.nodes == ProjectedNodes(doc)
    && SortedBy(t.edges, EdgeLe)
    && forall e :: multiset(t.edges)[e] == EdgeCount(doc, e)
  }

  // ---- The projection is well formed and unique ----

  lemma {:induction false} CountedLeads(doc: Doc, conns: seq<Option<string>>, b: int)
    requires CountLeads(doc, conns, b) > 0
    ensures 1 <= b <= |doc.nodes| + |doc.outputs|
  {
    if !Leads(doc, conns[0], b) { CountedLeads(doc, conns[1..], b); }
  }

  lemma {:induction false} CountedWithin(doc: Doc, e: Edge)
    requires EdgeCount(doc, e) > 0
    ensures Within(e, |ProjectedNodes(doc)|)
  {
    if CountLeads(doc, Links(doc, e.src, e.kind), e.dst) > 0 {
      CountedLeads(doc, Links(doc, e.src, e.kind), e.dst);
    }
  }

  lemma {:induction false} ProjectionInRange(doc: Doc, t: Topology)
    requires IsProjection(doc, t)
    ensures InRange(t)
  {
    forall e | e in t.edges ensures Within(e, |t.nodes|) {
      assert e in multiset(t.edges);
      CountedWithin(doc, e);
    }
  }

  lemma {:induction false} SortedSameElements(a: seq<Edge>, b: seq<Edge>)
    requires SortedBy(a, EdgeLe) && SortedBy(b, EdgeLe) && multiset(a) == multiset(b)
    ensures a == b
  {
    EdgeOrder();
    forall k ensures Peers(a, k, EdgeLe) == Peers(b, k, EdgeLe) {
      LonelyPeers(a, k, EdgeLe);
      LonelyPeers(b, k, EdgeLe);
    }
    SortedIsUnique(a, b, EdgeLe);
  }

  lemma {:induction false} ProjectionUnique(doc: Doc, t: Topology, other: Doc, u: Topology)
    requires IsProjection(doc, t) && IsProjection(other, u)
    requires ProjectedNodes(doc) == ProjectedNodes(other)
    requires forall e :: EdgeCount(doc, e) == EdgeCount(other, e)
    ensures t == u
  {
    assert multiset(t.edges) == multiset(u.edges) by {
      forall e ensures multiset(t.edges)[e] == multiset(u.edges)[e] {
        assert EdgeCount(doc, e) == EdgeCount(other, e);
      }
    }
    SortedSameElements(t.edges, u.edges);
  }

  // ---- Names do not matter ----

  function RenameOne(x: Option<string>, r: string -> string): Option<string> {
    if x.None? then None else Some(r(x.value))
  }

  function RenameAll(xs: seq<Option<string>>, r: string -> string): (ys: seq<Option<string>>)
    ensures |ys| == |xs| && forall i :: 0 <= i < |xs| ==> ys[i] == RenameOne(xs[i], r)
  {
    seq(|xs|, i requires 0 <= i < |xs| => RenameOne(xs[i], r))
  }

  function RenameNode(n: NodeSpec, r: string -> string): NodeSpec {
    n.(id := RenameOne(n.id, r),
       input := RenameOne(n.input, r),
       onSuccess := RenameOne(n.onSuccess, r),
       onError := RenameOne(n.onError, r),
       routes := if n.routes.None? then None else Some(RenameAll(n.routes.value, r)),
       forkTo := RenameAll(n.forkTo, r),
       branches := RenameAll(n.branches, r))
  }

  function RenameOutput(o: OutputSpec, r: string -> string): OutputSpec {
    o.(sinkName := if o.sinkName.None? then None else Some(RenameOne(o.sinkName.value, r)),
       name := RenameOne(o.name, r))
  }

  function RenameSource(s: SourceSpec, r: string -> string): SourceSpec {
    s.(onSuccess := RenameOne(s.onSuccess, r))
  }

  /** Every id, connection name and sink name renamed. */
  function Rename(doc: Doc, r: string -> string): Doc {
    Doc(seq(|doc.sources|, i requires 0 <= i < |doc.sources| => RenameSource(doc.sources[i], r)),
        if doc.source.None? then None else Some(RenameSource(doc.source.value, r)),
        seq(|doc.nodes|, i requires 0 <= i < |doc.nodes| => RenameNode(doc.nodes[i], r)),
        seq(|doc.outputs|, i requires 0 <= i < |doc.outputs| => RenameOutput(doc.outputs[i], r)))
  }

  predicate Unnamed(o: OutputSpec) {
    if o.sinkName.Some? then o.sinkName.value.None? else o.name.None?
  }

  /** An output without a name, or a null branch, is keyed by the word None. */
  ghost predicate HasNullName(doc: Doc) {
    || (exists o :: o in doc.outputs && Unnamed(o))
    || (exists n :: n in doc.nodes && None in n.branches)
  }

  ghost predicate Admissible(doc: Doc, r: string -> string) {
    && Injective(r) && r("discard") == "discard" && r("fork") == "fork"
    && (HasNullName(doc) ==> r("None") == "None")
  }

  lemma {:induction false} RenamedConsumes(doc: Doc, r: string -> string, i: nat, c: string)
    requires Admissible(doc, r) && i < |doc.nodes|
    ensures Consumes(RenameNode(doc.nodes[i], r), r(c)) <==> Consumes(doc.nodes[i], c)
  {
    var n := doc.nodes[i];
    var m := RenameNode(n, r);
    forall k | 0 <= k < |n.branches| ensures Str(m.branches[k]) == r(c) <==> Str(n.branches[k]) == c {
      if n.branches[k].None? {
        assert n in doc.nodes && None in n.branches;
      }
    }
    if b :| b in n.branches && Str(b) == c {
      var k :| 0 <= k < |n.branches| && n.branches[k] == b;
      assert m.branches[k] in m.branches;
    }
    if b :| b in m.branches && Str(b) == r(c) {
      var k :| 0 <= k < |n.branches| && m.branches[k] == b;
      assert n.branches[k] in n.branches;
    }
  }

  lemma {:induction false} RenamedOutput(doc: Doc, r: string -> string, j: nat, c: string)
    requires Admissible(doc, r) && j < |doc.outputs|
    ensures OutputName(RenameOutput(doc.outputs[j], r)) == r(c) <==> OutputName(doc.outputs[j]) == c
  {
    if Unnamed(doc.outputs[j]) {
      assert doc.outputs[j] in doc.outputs;
    }
  }

  lemma {:induction false} RenamedLastOutput(doc: Doc, r: string -> string, j: int, c: string)
    requires Admissible(doc, r)
    ensures LastOutputNamed(Rename(doc, r), j, r(c)) <==> LastOutputNamed(doc, j, c)
  {
    var d := Rename(doc, r);
    forall k: nat | k < |doc.outputs|
      ensures OutputName(d.outputs[k]) == r(c) <==> OutputName(doc.outputs[k]) == c
    {
      RenamedOutput(doc, r, k, c);
    }
  }

  lemma {:induction false} RenamedLeads(doc: Doc, r: string -> string, conn: Option<string>, b: int)
    requires Admissible(doc, r)
    ensures Leads(Rename(doc, r), RenameOne(conn, r), b) <==> Leads(doc, conn, b)
  {
    if conn.Some? {
      var d, c := Rename(doc, r), conn.value;
      assert r(c) == "discard" <==> c == "discard";
      if 1 <= b <= |doc.nodes| {
        RenamedConsumes(doc, r, b - 1, c);
        assert d.nodes[b - 1] == RenameNode(doc.nodes[b - 1], r);
      }
      assert ConsumedAt(d, r(c), b) <==> ConsumedAt(doc, c, b);
      RenamedLastOutput(doc, r, b - 1 - |doc.nodes|, c);
      assert SunkAt(d, r(c), b) <==> SunkAt(doc, c, b);
    }
  }

  lemma {:induction false} RenamedFedById(doc: Doc, r: string -> string, a: int, b: int)
    requires Injective(r)
    ensures FedById(Rename(doc, r), a, b) <==> FedById(doc, a, b)
  {
    var d := Rename(doc, r);
    assert |d.nodes| == |doc.nodes|;
    assert forall k :: 0 <= k < |doc.nodes| ==> d.nodes[k].id == RenameOne(doc.nodes[k].id, r);
    if 1 <= b <= |doc.nodes| && doc.nodes[b - 1].input.Some? {
      var c := doc.nodes[b - 1].input.value;
      assert LastNodeWithId(d, a - 1, r(c)) <==> LastNodeWithId(doc, a - 1, c);
    }
  }

  lemma {:induction false} RenamedNode(n: NodeSpec, r: string -> string)
    ensures NodeOf(RenameNode(n, r)) == NodeOf(n)
  {
    var m := RenameNode(n, r);
    assert ForkCount(m) == ForkCount(n) && BranchCount(m) == BranchCount(n) && RouteCount(m) == RouteCount(n);
    assert RawExtras(m) == RawExtras(n);
  }

  lemma {:induction false} RenamedNodes(doc: Doc, r: string -> string)
    ensures ProjectedNodes(Rename(doc, r)) == ProjectedNodes(doc)
  {
    var d := Rename(doc, r);
    forall i | 0 <= i < |doc.nodes| ensures NodeOf(d.nodes[i]) == NodeOf(doc.nodes[i]) {
      RenamedNode(doc.nodes[i], r);
    }
    MappedAlike(NodeOf, d.nodes, doc.nodes);
    MappedAlike(OutputNode, d.outputs, doc.outputs);
  }

  lemma {:induction false} RenamedCount(doc: Doc, r: string -> string, conns: seq<Option<string>>, b: int)
    requires Admissible(doc, r)
    ensures CountLeads(Rename(doc, r), RenameAll(conns, r), b) == CountLeads(doc, conns, b)
  {
    if conns != [] {
      RenamedLeads(doc, r, conns[0], b);
      assert RenameAll(conns, r)[1..] == RenameAll(conns[1..], r);
      RenamedCount(doc, r, conns[1..], b);
    }
  }

  lemma {:induction false} RenamedUnlessFork(conns: seq<Option<string>>, r: string -> string)
    requires Injective(r) && r("fork") == "fork"
    ensures UnlessFork(RenameAll(conns, r)) == RenameAll(UnlessFork(conns), r)
  {
    if conns != [] {
      assert RenameAll(conns, r)[1..] == RenameAll(conns[1..], r);
      RenamedUnlessFork(conns[1..], r);
    }
  }

  lemma {:induction false} RenamedOneLink(x: Option<string>, r: string -> string)
    ensures RenameAll([x], r) == [RenameOne(x, r)] && RenameAll([], r) == []
  {
  }

  lemma {:induction false} RenamedNodeLinks(n: NodeSpec, r: string -> string, kind: string)
    requires Injective(r) && r("fork") == "fork"
    ensures NodeLinks(RenameNode(n, r), kind) == RenameAll(NodeLinks(n, kind), r)
  {
    RenamedOneLink(n.onSuccess, r);
    RenamedOneLink(n.onError, r);
    if n.routes.Some? { RenamedUnlessFork(n.routes.value, r); }
  }

  lemma {:induction false} RenamedLinks(doc: Doc, r: string -> string, a: int, kind: string)
    requires Admissible(doc, r)
    ensures Links(Rename(doc, r), a, kind) == RenameAll(Links(doc, a, kind), r)
  {
    RenamedOneLink(SourceOf(doc).onSuccess, r);
    if 1 <= a <= |doc.nodes| { RenamedNodeLinks(doc.nodes[a - 1], r, kind); }
  }

  lemma {:induction false} RenamedEdgeCount(doc: Doc, r: string -> string, e: Edge)
    requires Admissible(doc, r)
    ensures EdgeCount(Rename(doc, r), e) == EdgeCount(doc, e)
  {
    RenamedLinks(doc, r, e.src, e.kind);
    RenamedCount(doc, r, Links(doc, e.src, e.kind), e.dst);
    RenamedFedById(doc, r, e.src, e.dst);
  }

  /** Renaming leaves the projected graph as it is, edge for edge. */
  lemma {:induction false} RenamingInvariance(doc: Doc, r: string -> string, t: Topology)
    requires Admissible(doc, r)
    ensures IsProjection(Rename(doc, r), t) <==> IsProjection(doc, t)
  {
    RenamedNodes(doc, r);
    forall e ensures EdgeCount(doc, e) == EdgeCount(Rename(doc, r), e) { RenamedEdgeCount(doc, r, e); }
  }

  // ---- Which renamings leave every projection unchanged ----

  /** A source that sends on `c`, and one output called `o`. */
  function Wire(c: string, o: Option<string>): Doc {
    Doc([], Some(SourceSpec(None, Some(c))), [], [OutputSpec(None, o, None)])
  }

  predicate Connects(c: string, o: Option<string>) { c != "discard" && Str(o) == c }

  ghost function WireGraph(c: string, o: Option<string>): Topology {
    Topology(ProjectedNodes(Wire(c, o)), if Connects(c, o) then [Edge(0, 1, "on_success")] else [])
  }

  lemma {:induction false} WireEdges(c: string, o: Option<string>, e: Edge)
    ensures EdgeCount(Wire(c, o), e) == if Connects(c, o) && e == Edge(0, 1, "on_success") then 1 else 0
  {
    var doc := Wire(c, o);
    assert !FedById(doc, e.src, e.dst);
    assert OutputName(doc.outputs[0]) == Str(o);
    assert Leads(doc, Some(c), e.dst) <==> Connects(c, o) && e.dst == 1;
    if e.src == 0 && e.kind == "on_success" {
      assert Links(doc, 0, e.kind) == [Some(c)];
      assert CountLeads(doc, [Some(c)][1..], e.dst) == 0;
    }
  }

  lemma {:induction false} WireProjects(c: string, o: Option<string>)
    ensures IsProjection(Wire(c, o), WireGraph(c, o))
  {
    forall e ensures multiset(WireGraph(c, o).edges)[e] == EdgeCount(Wire(c, o), e) { WireEdges(c, o, e); }
  }

  /** A node with the one route `c`, and one output of that name. */
  function Route(c: string): Doc {
    Doc([], None, [NodeSpec(None, None, None, None, None, None, Some([Some(c)]), [], [], None, None, map[], [])],
        [OutputSpec(None, Some(c), None)])
  }

  predicate Routed(c: string) { c != "fork" && c != "discard" }

  ghost function RouteGraph(c: string): Topology {
    Topology(ProjectedNodes(Route(c)), if Routed(c) then [Edge(1, 2, "route")] else [])
  }

  lemma {:induction false} RouteEdges(c: string, e: Edge)
    ensures EdgeCount(Route(c), e) == if Routed(c) && e == Edge(1, 2, "route") then 1 else 0
  {
    var doc := Route(c);
    assert !FedById(doc, e.src, e.dst);
    assert OutputName(doc.outputs[0]) == c;
    assert Leads(doc, Some(c), e.dst) <==> c != "discard" && e.dst == 2;
    assert UnlessFork([Some(c)][1..]) == [] && CountLeads(doc, [Some(c)][1..], e.dst) == 0;
    assert !Leads(doc, None, e.dst) && CountLeads(doc, [None][1..], e.dst) == 0;
    assert UnlessFork([Some(c)]) == if c == "fork" then [] else [Some(c)];
  }

  lemma {:induction false} RouteProjects(c: string)
    ensures IsProjection(Route(c), RouteGraph(c))
  {
    forall e ensures multiset(RouteGraph(c).edges)[e] == EdgeCount(Route(c), e) { RouteEdges(c, e); }
  }

  /** The renaming changes no projection at all. */
  ghost predicate Harmless(r: string -> string) {
    forall doc, t, u :: IsProjection(doc, t) && IsProjection(Rename(doc, r), u) ==> t == u
  }

  lemma {:induction false} HarmlessWire(r: string -> string, c: string, o: Option<string>)
    requires Harmless(r)
    ensures Connects(c, o) <==> Connects(r(c), RenameOne(o, r))
  {
    WireProjects(c, o);
    WireProjects(r(c), RenameOne(o, r));
    assert Rename(Wire(c, o), r) == Wire(r(c), RenameOne(o, r));
  }

  lemma {:induction false} RenamedRoute(r: string -> string, c: string)
    ensures Rename(Route(c), r) == Route(r(c))
  {
    var doc, other := Rename(Route(c), r), Route(r(c));
    assert RenameAll([Some(c)], r) == [Some(r(c))] && RenameAll([], r) == [];
    assert RenameNode(Route(c).nodes[0], r) == other.nodes[0];
    assert doc.sources == other.sources && doc.nodes == other.nodes && doc.outputs == other.outputs;
  }

  lemma {:induction false} HarmlessRoute(r: string -> string, c: string)
    requires Harmless(r)
    ensures Routed(c) <==> Routed(r(c))
  {
    RouteProjects(c);
    RouteProjects(r(c));
    RenamedRoute(r, c);
    assert RouteGraph(c).edges == RouteGraph(r(c)).edges;
  }

  lemma {:induction false} HarmlessKeepsNames(r: string -> string, x: string, y: string)
    requires Harmless(r) && r(x) == r(y)
    ensures x == y
  {
    HarmlessWire(r, x, Some(x));
    HarmlessWire(r, y, Some(y));
    HarmlessWire(r, x, Some(y));
  }

  /**
   Exactly the injective renamings that keep the three words `discard`, `fork` and `None` leave the
   projection of every document unchanged.
   */
  lemma {:induction false} RenamingIff(r: string -> string)
    ensures Harmless(r) <==> Injective(r) && r("discard") == "discard" && r("fork") == "fork" && r("None") == "None"
  {
    if Harmless(r) {
      forall x, y | r(x) == r(y) ensures x == y { HarmlessKeepsNames(r, x, y); }
      HarmlessWire(r, "discard", Some("discard"));
      HarmlessWire(r, "None", None);
      HarmlessWire(r, "fork", Some("fork"));
      HarmlessRoute(r, "fork");
    }
    if Injective(r) && r("discard") == "discard" && r("fork") == "fork" && r("None") == "None" {
      forall doc, t, u | IsProjection(doc, t) && IsProjection(Rename(doc, r), u) ensures t == u {
        RenamingInvariance(doc, r, u);
        ProjectionUnique(doc, t, doc, u);
      }
    }
  }

  /** A renaming that moves the word None takes the edge from a source to an output without a name. */
  lemma {:induction false} NullNameMustBeFixed(r: string -> string)
    requires r("None") != "None"
    ensures EdgeCount(Wire("None", None), Edge(0, 1, "on_success")) == 1
    ensures EdgeCount(Rename(Wire("None", None), r), Edge(0, 1, "on_success")) == 0
  {
    WireEdges("None", None, Edge(0, 1, "on_success"));
    WireEdges(r("None"), None, Edge(0, 1, "on_success"));
    assert Rename(Wire("None", None), r) == Wire(r("None"), None);
  }

  // ---- Order does not matter ----

  ghost predicate Reordered(doc: Doc, other: Doc, p: seq<nat>, q: seq<nat>) {
    && SourceOf(other) == SourceOf(doc)
    && |other.nodes| == |doc.nodes| && Bijection(p, |doc.nodes|)
    && |other.outputs| == |doc.outputs| && Bijection(q, |doc.outputs|)
    && (forall i :: 0 <= i < |doc.nodes| ==> other.nodes[i] == doc.nodes[p[i]])
    && (forall j :: 0 <= j < |doc.outputs| ==> other.outputs[j] == doc.outputs[q[j]])
  }

  ghost predicate UniqueNames(doc: Doc) {
    && (forall i, j :: 0 <= i < j < |doc.nodes| && doc.nodes[i].id.Some? ==> doc.nodes[i].id != doc.nodes[j].id)
    && (forall i, j :: 0 <= i < j < |doc.outputs| ==> OutputName(doc.outputs[i]) != OutputName(doc.outputs[j]))
  }

  /** Where each slot of the reordered document was before. */
  ghost function Renumbering(p: seq<nat>, q: seq<nat>): seq<nat> {
    [0] + seq(|p|, i requires 0 <= i < |p| => 1 + p[i]) + seq(|q|, j requires 0 <= j < |q| => 1 + |p| + q[j])
  }

  lemma {:induction false} RenumberingBijective(p: seq<nat>, q: seq<nat>)
    requires Bijection(p, |p|) && Bijection(q, |q|)
    ensures Bijection(Renumbering(p, q), 1 + |p| + |q|)
  {
    var f := Renumbering(p, q);
    forall i, j | 0 <= i < j < |f| ensures f[i] != f[j] {
      if 1 <= i && j <= |p| { assert p[i - 1] != p[j - 1]; }
      if |p| < i { assert q[i - 1 - |p|] != q[j - 1 - |p|]; }
    }
  }

  lemma {:induction false} ReorderedLastOutput(doc: Doc, other: Doc, p: seq<nat>, q: seq<nat>, j: nat, c: string)
    requires Reordered(doc, other, p, q) && UniqueNames(doc) && j < |doc.outputs|
    ensures LastOutputNamed(other, j, c) <==> LastOutputNamed(doc, q[j], c)
  {
    if OutputName(doc.outputs[q[j]]) == c {
      forall k | j < k < |doc.outputs| ensures OutputName(other.outputs[k]) != c {
        assert q[j] != q[k];
      }
    }
  }

  lemma {:induction false} ReorderedLastNode(doc: Doc, other: Doc, p: seq<nat>, q: seq<nat>, i: nat, id: string)
    requires Reordered(doc, other, p, q) && UniqueNames(doc) && i < |doc.nodes|
    ensures LastNodeWithId(other, i, id) <==> LastNodeWithId(doc, p[i], id)
  {
    if doc.nodes[p[i]].id == Some(id) {
      forall k | i < k < |doc.nodes| ensures other.nodes[k].id != Some(id) {
        assert p[i] != p[k];
      }
    }
  }

  lemma {:induction false} ReorderedLeads(doc: Doc, other: Doc, p: seq<nat>, q: seq<nat>, conn: Option<string>, b: nat)
    requires Reordered(doc, other, p, q) && UniqueNames(doc) && b < 1 + |p| + |q|
    ensures Leads(other, conn, b) <==> Leads(doc, conn, Renumbering(p, q)[b])
  {
    if conn.Some? && |p| < b {
      ReorderedLastOutput(doc, other, p, q, b - 1 - |p|, conn.value);
    }
  }

  lemma {:induction false} ReorderedCount(
    doc: Doc, other: Doc, p: seq<nat>, q: seq<nat>, conns: seq<Option<string>>, b: nat)
    requires Reordered(doc, other, p, q) && UniqueNames(doc) && b < 1 + |p| + |q|
    ensures CountLeads(other, conns, b) == CountLeads(doc, conns, Renumbering(p, q)[b])
  {
    if conns != [] {
      ReorderedLeads(doc, other, p, q, conns[0], b);
      ReorderedCount(doc, other, p, q, conns[1..], b);
    }
  }

  lemma {:induction false} ReorderedFedById(doc: Doc, other: Doc, p: seq<nat>, q: seq<nat>, a: nat, b: nat)
    requires Reordered(doc, other, p, q) && UniqueNames(doc) && a < 1 + |p| + |q| && b < 1 + |p| + |q|
    ensures var f := Renumbering(p, q); FedById(other, a, b) <==> FedById(doc, f[a], f[b])
  {
    if 1 <= b <= |p| && other.nodes[b - 1].input.Some? && 1 <= a <= |p| {
      ReorderedLastNode(doc, other, p, q, a - 1, other.nodes[b - 1].input.value);
    }
  }

  lemma {:induction false} ReorderedEdgeCount(doc: Doc, other: Doc, p: seq<nat>, q: seq<nat>, e: Edge)
    requires Reordered(doc, other, p, q) && UniqueNames(doc) && Within(e, 1 + |p| + |q|)
    ensures EdgeCount(other, e) == EdgeCount(doc, MapEdge(e, Renumbering(p, q)))
  {
    var f := Renumbering(p, q);
    assert Links(other, e.src, e.kind) == Links(doc, f[e.src], e.kind);
    ReorderedCount(doc, other, p, q, Links(other, e.src, e.kind), e.dst);
    ReorderedFedById(doc, other, p, q, e.src, e.dst);
  }

  lemma {:induction false} ReorderedEdges(doc: Doc, other: Doc, p: seq<nat>, q: seq<nat>, t: Topology, u: Topology)
    requires Reordered(doc, other, p, q) && UniqueNames(doc)
    requires IsProjection(doc, t) && IsProjection(other, u) && InRange(u) && InRange(t)
    ensures Bijection(Renumbering(p, q), |u.nodes|)
    ensures multiset(MapEdges(u.edges, Renumbering(p, q))) == multiset(t.edges)
  {
    var f, n := Renumbering(p, q), |u.nodes|;
    RenumberingBijective(p, q);
    var g := InverseOf(f, n);
    forall z ensures multiset(MapEdges(u.edges, f))[z] == multiset(t.edges)[z] {
      MapEdgesPreimage(u.edges, f, g, n, z);
      if Within(z, n) {
        ReorderedEdgeCount(doc, other, p, q, MapEdge(z, g));
        assert MapEdge(MapEdge(z, g), f) == z;
      } else {
        assert z !in t.edges;
      }
    }
  }

  lemma {:induction false} PartsAt<T>(head: T, xs: seq<T>, ys: seq<T>, j: nat)
    requires j < 1 + |xs| + |ys|
    ensures ([head] + xs + ys)[j] == if j == 0 then head else if j <= |xs| then xs[j - 1] else ys[j - 1 - |xs|]
  {
  }

  lemma {:induction false} ProjectedAt(doc: Doc, j: nat)
    requires j < 1 + |doc.nodes| + |doc.outputs|
    ensures |ProjectedNodes(doc)| == 1 + |doc.nodes| + |doc.outputs|
    ensures ProjectedNodes(doc)[j] ==
            if j == 0 then TNode("source", SourceOf(doc).plugin, [])
            else if j <= |doc.nodes| then NodeOf(doc.nodes[j - 1])
            else OutputNode(doc.outputs[j - 1 - |doc.nodes|])
  {
    PartsAt(TNode("source", SourceOf(doc).plugin, []), Mapped(NodeOf, doc.nodes), Mapped(OutputNode, doc.outputs), j);
  }

  lemma {:induction false} RenumberedAt(p: seq<nat>, q: seq<nat>, j: nat)
    requires j < 1 + |p| + |q|
    ensures |Renumbering(p, q)| == 1 + |p| + |q|
    ensures Renumbering(p, q)[j] == if j == 0 then 0 else if j <= |p| then 1 + p[j - 1] else 1 + |p| + q[j - 1 - |p|]
  {
  }

  /** Slots `j` and `k` are both the source, or hold the same node, or the same output. */
  ghost predicate SameSlot(other: Doc, j: nat, doc: Doc, k: nat) {
    var n := |doc.nodes|;
    && |other.nodes| == n && j < 1 + n + |other.outputs| && k < 1 + n + |doc.outputs|
    && SourceOf(other) == SourceOf(doc)
    && (j == 0 <==> k == 0) && (j <= n <==> k <= n)
    && (0 < j <= n && k > 0 ==> other.nodes[j - 1] == doc.nodes[k - 1])
    && (n < j && n < k ==> other.outputs[j - 1 - n] == doc.outputs[k - 1 - n])
  }

  lemma {:induction false} RenumberedSlot(doc: Doc, other: Doc, p: seq<nat>, q: seq<nat>, j: nat)
    requires Reordered(doc, other, p, q) && j < 1 + |p| + |q|
    ensures |Renumbering(p, q)| == 1 + |p| + |q| && SameSlot(other, j, doc, Renumbering(p, q)[j])
  {
    RenumberedAt(p, q, j);
  }

  lemma {:induction false} SameSlotProjects(other: Doc, j: nat, doc: Doc, k: nat)
    requires SameSlot(other, j, doc, k)
    ensures j < |ProjectedNodes(other)| && k < |ProjectedNodes(doc)|
    ensures ProjectedNodes(other)[j] == ProjectedNodes(doc)[k]
  {
    ProjectedAt(other, j);
    ProjectedAt(doc, k);
  }

  lemma {:induction false} ReorderedCorrespondence(
    doc: Doc, other: Doc, p: seq<nat>, q: seq<nat>, t: Topology, u: Topology)
    requires Reordered(doc, other, p, q) && UniqueNames(doc)
    requires IsProjection(doc, t) && IsProjection(other, u)
    ensures Corresponds(t, u, Renumbering(p, q))
  {
    ProjectionInRange(doc, t);
    ProjectionInRange(other, u);
    ReorderedEdges(doc, other, p, q, t, u);
    forall j: nat | j < 1 + |p| + |q| ensures u.nodes[j] == t.nodes[Renumbering(p, q)[j]] {
      RenumberedSlot(doc, other, p, q, j);
      SameSlotProjects(other, j, doc, Renumbering(p, q)[j]);
    }
  }

  /** A reordered document has a projection when the document does. */
  lemma {:induction false} ReorderedProjection(doc: Doc, other: Doc, p: seq<nat>, q: seq<nat>, t: Topology)
    returns (u: Topology)
    requires Reordered(doc, other, p, q) && UniqueNames(doc) && IsProjection(doc, t)
    ensures IsProjection(other, u)
  {
    var f, n := Renumbering(p, q), 1 + |p| + |q|;
    RenumberingBijective(p, q);
    ProjectionInRange(doc, t);
    var g := InverseOf(f, n);
    var edges := MapEdges(t.edges, g);
    u := Topology(ProjectedNodes(other), Sort(edges, EdgeLe));
    EdgeOrder();
    SortSorts(edges, EdgeLe);
    SortKeepsElements(edges, EdgeLe);
    forall e ensures multiset(edges)[e] == EdgeCount(other, e) {
      MapEdgesPreimage(t.edges, g, f, n, e);
      if Within(e, n) { ReorderedEdgeCount(doc, other, p, q, e); }
      else if EdgeCount(other, e) > 0 { CountedWithin(other, e); }
    }
  }

  /** Reordering nodes and outputs gives an isomorphic graph, which the comparator accepts when no plugin is empty. */
  lemma {:induction false} OrderInvariance(doc: Doc, other: Doc, p: seq<nat>, q: seq<nat>, t: Topology, u: Topology)
    requires Reordered(doc, other, p, q) && UniqueNames(doc)
    requires IsProjection(doc, t) && IsProjection(other, u)
    ensures Isomorphic(t, u)
    ensures Matches(t, u) <==> BlankPluginsAligned(t, u)
    ensures NoEmptyPlugin(t) ==> Matches(t, u)
  {
    ReorderedCorrespondence(doc, other, p, q, t, u);
    if NoEmptyPlugin(t) { MatchesIsIsomorphism(t, u); }
  }

  /** Reordering can be undone. */
  lemma {:induction false} ReorderedBack(doc: Doc, other: Doc, p: seq<nat>, q: seq<nat>)
    requires Reordered(doc, other, p, q) && UniqueNames(doc)
    ensures Reordered(other, doc, InverseOf(p, |p|), InverseOf(q, |q|)) && UniqueNames(other)
  {
    forall i, j | 0 <= i < j < |other.nodes| && other.nodes[i].id.Some? ensures other.nodes[i].id != other.nodes[j].id {
      assert p[i] != p[j];
    }
    forall i, j | 0 <= i < j < |other.outputs| ensures OutputName(other.outputs[i]) != OutputName(other.outputs[j]) {
      assert q[i] != q[j];
    }
  }

  // ---- The projection, as it is computed ----

  /** The two name tables the loops fill. */
  ghost predicate Indexed(doc: Doc, consumers: map<string, seq<nat>>, outputs: map<string, nat>) {
    && (forall c, b: int :: ConsumedAt(doc, c, b) <==> c in consumers && b in consumers[c])
    && (forall c, b: int :: SunkAt(doc, c, b) <==> c in outputs && b == outputs[c])
  }

  function Targets(consumers: map<string, seq<nat>>, outputs: map<string, nat>, conn: Option<string>): seq<nat> {
    if conn.None? || conn.value == "discard" then []
    else
      Deduped(if conn.value in consumers then consumers[conn.value] else [])
      + (if conn.value in outputs then [outputs[conn.value]] else [])
  }

  lemma {:induction false} TargetsAreWhereItLeads(
    doc: Doc, consumers: map<string, seq<nat>>, outputs: map<string, nat>, conn: Option<string>)
    requires Indexed(doc, consumers, outputs)
    ensures var ts := Targets(consumers, outputs, conn);
            && (forall b :: b in ts <==> Leads(doc, conn, b))
            && (forall i, j :: 0 <= i < j < |ts| ==> ts[i] != ts[j])
  {
    var ts := Targets(consumers, outputs, conn);
    if conn.Some? && conn.value != "discard" {
      var c := conn.value;
      var nodes := Deduped(if c in consumers then consumers[c] else []);
      var sinks := if c in outputs then [outputs[c]] else [];
      assert ts == nodes + sinks;
      assert forall b: int :: b in nodes <==> ConsumedAt(doc, c, b);
      assert forall b: int :: b in sinks <==> SunkAt(doc, c, b);
      if sinks != [] { assert !ConsumedAt(doc, c, sinks[0]) by { assert SunkAt(doc, c, sinks[0]); } }
    }
  }

  ghost predicate OutputsIndexed(doc: Doc, outputs: map<string, nat>) {
    forall c, b: int :: SunkAt(doc, c, b) <==> c in outputs && b == outputs[c]
  }

  lemma {:induction false} OutputsIndexedSnoc(doc: Doc, j: nat, outputs: map<string, nat>)
    requires j < |doc.outputs| && OutputsIndexed(doc.(outputs := doc.outputs[..j]), outputs)
    ensures OutputsIndexed(doc.(outputs := doc.outputs[..j + 1]),
                           outputs[OutputName(doc.outputs[j]) := 1 + |doc.nodes| + j])
  {
    var before, after := doc.(outputs := doc.outputs[..j]), doc.(outputs := doc.outputs[..j + 1]);
    var o' := outputs[OutputName(doc.outputs[j]) := 1 + |doc.nodes| + j];
    assert forall k :: 0 <= k < j ==> after.outputs[k] == before.outputs[k];
    assert after.outputs[j] == doc.outputs[j];
    forall c, b: int ensures SunkAt(after, c, b) <==> c in o' && b == o'[c] {
      if OutputName(doc.outputs[j]) != c {
        assert SunkAt(after, c, b) <==> SunkAt(before, c, b);
      }
    }
  }

  method ProjectNodes(doc: Doc) returns (tnodes: seq<TNode>)
    ensures tnodes == ProjectedNodes(doc.(outputs := []))
  {
    tnodes := [TNode("source", SourceOf(doc).plugin, [])];
    for i := 0 to |doc.nodes|
      invariant tnodes == [TNode("source", SourceOf(doc).plugin, [])] + Mapped(NodeOf, doc.nodes[..i])
    {
      MappedSnoc(NodeOf, doc.nodes, i);
      tnodes := tnodes + [NodeOf(doc.nodes[i])];
    }
    assert doc.nodes[..|doc.nodes|] == doc.nodes;
  }

  method ProjectOutputs(doc: Doc, nodes: seq<TNode>) returns (tnodes: seq<TNode>, outputs: map<string, nat>)
    requires nodes == ProjectedNodes(doc.(outputs := []))
    ensures tnodes == nodes + Mapped(OutputNode, doc.outputs)
    ensures OutputsIndexed(doc, outputs)
  {
    tnodes, outputs := nodes, map[];
    for j := 0 to |doc.outputs|
      invariant tnodes == nodes + Mapped(OutputNode, doc.outputs[..j])
      invariant OutputsIndexed(doc.(outputs := doc.outputs[..j]), outputs)
    {
      OutputsIndexedSnoc(doc, j, outputs);
      MappedSnoc(OutputNode, doc.outputs, j);
      outputs := outputs[OutputName(doc.outputs[j]) := |tnodes|];
      tnodes := tnodes + [OutputNode(doc.outputs[j])];
    }
    assert doc.outputs[..|doc.outputs|] == doc.outputs;
  }

  /** One more node takes over its id, and leaves the others to their nodes. */
  lemma {:induction false} ProducersNext(doc: Doc, i: nat, c: string, a: int)
    requires i < |doc.nodes|
    ensures ProducedAt(doc.(nodes := doc.nodes[..i + 1]), c, a) <==>
            if doc.nodes[i].id == Some(c) then a == i + 1 else ProducedAt(doc.(nodes := doc.nodes[..i]), c, a)
  {
    var before, after := doc.nodes[..i], doc.nodes[..i + 1];
    assert after[i] == doc.nodes[i];
    assert forall k :: 0 <= k < i ==> after[k] == before[k];
  }

  /** Node ids are producer names too; a repeated id means its last node. */
  method IndexProducers(doc: Doc) returns (producers: map<string, nat>)
    ensures forall c, a: int :: ProducedAt(doc, c, a) <==> c in producers && a == producers[c]
  {
    producers := map[];
    for i := 0 to |doc.nodes|
      invariant forall c, a: int :: c in producers && a == producers[c] <==>
                                    ProducedAt(doc.(nodes := doc.nodes[..i]), c, a)
    {
      var id := doc.nodes[i].id;
      if id.Some? {
        producers := producers[id.value := i + 1];
      }
      ghost var after := doc.(nodes := doc.nodes[..i + 1]);
      forall c, a: int ensures c in producers && a == producers[c] <==> ProducedAt(after, c, a) {
        ProducersNext(doc, i, c, a);
      }
    }
    assert doc.(nodes := doc.nodes[..|doc.nodes|]) == doc;
  }

  ghost predicate Listed(consumers: map<string, seq<nat>>, c: string, b: int) {
    c in consumers && b in consumers[c]
  }

  /** `consumers.setdefault(c, []).append(i)` */
  function AddConsumer(consumers: map<string, seq<nat>>, c: string, i: nat): (r: map<string, seq<nat>>)
    ensures forall d, b: int :: Listed(r, d, b) <==> Listed(consumers, d, b) || (d == c && b == i)
  {
    consumers[c := (if c in consumers then consumers[c] else []) + [i]]
  }

  method IndexConsumers(doc: Doc) returns (consumers: map<string, seq<nat>>)
    ensures forall c, b: int :: ConsumedAt(doc, c, b) <==> Listed(consumers, c, b)
  {
    consumers := map[];
    for i := 1 to |doc.nodes| + 1
      invariant forall c, b: int :: Listed(consumers, c, b) <==> b < i && ConsumedAt(doc, c, b)
    {
      ghost var before := consumers;
      var n := doc.nodes[i - 1];
      if n.input.Some? {
        consumers := AddConsumer(consumers, n.input.value, i);
      }
      for k := 0 to |n.branches|
        invariant forall c, b: int :: Listed(consumers, c, b) <==>
                    Listed(before, c, b) ||
                    (b == i && (n.input == Some(c) || exists x :: x in n.branches[..k] && Str(x) == c))
      {
        consumers := AddConsumer(consumers, Str(n.branches[k]), i);
        assert n.branches[..k + 1] == n.branches[..k] + [n.branches[k]];
      }
      assert n.branches[..|n.branches|] == n.branches;
    }
  }

  method AppendTargets(edges: seq<Edge>, src: nat, targets: seq<nat>, kind: string) returns (r: seq<Edge>)
    requires forall i, j :: 0 <= i < j < |targets| ==> targets[i] != targets[j]
    ensures forall e :: multiset(r)[e] ==
                        multiset(edges)[e] + (if e.src == src && e.kind == kind && e.dst in targets then 1 else 0)
  {
    r := edges;
    for k := 0 to |targets|
      invariant forall e :: multiset(r)[e] ==
                            multiset(edges)[e] + (if e.src == src && e.kind == kind && e.dst in targets[..k]
                                then 1 else 0)
    {
      r := r + [Edge(src, targets[k], kind)];
      assert targets[..k + 1] == targets[..k] + [targets[k]];
      assert targets[k] !in targets[..k];
    }
    assert targets[..|targets|] == targets;
  }

  lemma {:induction false} CountLeadsSnoc(doc: Doc, conns: seq<Option<string>>, last: Option<string>, b: int)
    ensures CountLeads(doc, conns + [last], b) == CountLeads(doc, conns, b) + (if Leads(doc, last, b) then 1 else 0)
  {
    if conns == [] {
      assert [] + [last] == [last];
      assert CountLeads(doc, [], b) == 0;
    } else {
      assert (conns + [last])[1..] == conns[1..] + [last];
      CountLeadsSnoc(doc, conns[1..], last, b);
    }
  }

  /** The edges one slot sends along a list of connections. */
  method AppendLinks(
    ghost doc: Doc, consumers: map<string, seq<nat>>, outputs: map<string, nat>,
    edges: seq<Edge>, src: nat, conns: seq<Option<string>>, kind: string) returns (r: seq<Edge>)
    requires Indexed(doc, consumers, outputs)
    ensures forall e :: multiset(r)[e] ==
                        multiset(edges)[e] + (if e.src == src && e.kind == kind
                            then CountLeads(doc, conns, e.dst) else 0)
  {
    r := edges;
    for k := 0 to |conns|
      invariant forall e ::
                  multiset(r)[e] ==
                  multiset(edges)[e] + (if e.src == src && e.kind == kind
                      then CountLeads(doc, conns[..k], e.dst) else 0)
    {
      TargetsAreWhereItLeads(doc, consumers, outputs, conns[k]);
      r := AppendTargets(r, src, Targets(consumers, outputs, conns[k]), kind);
      assert conns[..k + 1] == conns[..k] + [conns[k]];
      forall b: int { CountLeadsSnoc(doc, conns[..k], conns[k], b); }
    }
    assert conns[..|conns|] == conns;
  }

  /** What the loop has emitted once the slots below `i` are done. */
  ghost function EmittedBelow(doc: Doc, i: int, e: Edge): nat {
    (if e.src < i then CountLeads(doc, Links(doc, e.src, e.kind), e.dst) else 0) +
    (if e.kind == "on_success" && e.dst < i && FedById(doc, e.src, e.dst) then 1 else 0)
  }

  method AppendNodeLinks(
    ghost doc: Doc, n: NodeSpec, consumers: map<string, seq<nat>>, outputs: map<string, nat>,
    edges: seq<Edge>, i: nat) returns (r: seq<Edge>)
    requires Indexed(doc, consumers, outputs)
    ensures forall e :: multiset(r)[e] ==
                        multiset(edges)[e] + (if e.src == i then CountLeads(doc, NodeLinks(n, e.kind), e.dst) else 0)
  {
    var routes := if n.routes.Some? then UnlessFork(n.routes.value) else [];
    var r1 := AppendLinks(doc, consumers, outputs, edges, i, [n.onSuccess], "on_success");
    var r2 := AppendLinks(doc, consumers, outputs, r1, i, [n.onError], "on_error");
    var r3 := AppendLinks(doc, consumers, outputs, r2, i, routes, "route");
    r := AppendLinks(doc, consumers, outputs, r3, i, n.forkTo, "fork");
    assert |"on_success"| == 10 && |"on_error"| == 8 && |"route"| == 5 && |"fork"| == 4;
    forall e ensures multiset(r)[e] ==
                     multiset(edges)[e] + (if e.src == i then CountLeads(doc, NodeLinks(n, e.kind), e.dst) else 0)
    {
      assert multiset(r1)[e] == multiset(edges)[e] +
                                (if e.src == i && e.kind == "on_success"
                                    then CountLeads(doc, [n.onSuccess], e.dst) else 0);
      assert multiset(r3)[e] == multiset(r2)[e] +
                                (if e.src == i && e.kind == "route" then CountLeads(doc, routes, e.dst) else 0);
    }
  }

  /** The edge from an id-addressed producer to node `i`. */
  method AppendFed(doc: Doc, producers: map<string, nat>, edges: seq<Edge>, i: nat) returns (r: seq<Edge>)
    requires 1 <= i <= |doc.nodes|
    requires forall c, a: int :: ProducedAt(doc, c, a) <==> c in producers && a == producers[c]
    ensures forall e :: multiset(r)[e] == multiset(edges)[e] + (if FedEdge(doc, e, i) then 1 else 0)
  {
    var input := doc.nodes[i - 1].input;
    r := edges;
    if input.Some? && input.value in producers {
      r := r + [Edge(producers[input.value], i, "on_success")];
      assert ProducedAt(doc, input.value, producers[input.value]);
    }
  }

  ghost predicate FedEdge(doc: Doc, e: Edge, i: nat) {
    e.kind == "on_success" && e.dst == i && FedById(doc, e.src, i)
  }

  method AppendNode(
    doc: Doc, producers: map<string, nat>, consumers: map<string, seq<nat>>, outputs: map<string, nat>,
    edges: seq<Edge>, i: nat) returns (r: seq<Edge>)
    requires 1 <= i <= |doc.nodes| && Indexed(doc, consumers, outputs)
    requires forall c, a: int :: ProducedAt(doc, c, a) <==> c in producers && a == producers[c]
    requires forall e :: multiset(edges)[e] == EmittedBelow(doc, i, e)
    ensures forall e :: multiset(r)[e] == EmittedBelow(doc, i + 1, e)
  {
    r := AppendFed(doc, producers, edges, i);
    r := AppendNodeLinks(doc, doc.nodes[i - 1], consumers, outputs, r, i);
    forall e ensures multiset(r)[e] == EmittedBelow(doc, i + 1, e) {
      assert multiset(edges)[e] == EmittedBelow(doc, i, e);
    }
  }

  /** `topology_from_pipeline` */
  method TopologyFromPipeline(doc: Doc) returns (t: Topology)
    ensures IsProjection(doc, t)
    ensures InRange(t)
  {
    var nodes := ProjectNodes(doc);
    var tnodes, outputs := ProjectOutputs(doc, nodes);
    var producers := IndexProducers(doc);
    var consumers := IndexConsumers(doc);
    var edges := AppendLinks(doc, consumers, outputs, [], 0, [SourceOf(doc).onSuccess], "on_success");
    for i := 1 to |doc.nodes| + 1
      invariant forall e :: multiset(edges)[e] == EmittedBelow(doc, i, e)
    {
      edges := AppendNode(doc, producers, consumers, outputs, edges, i);
    }
    t := Topology(tnodes, Sort(edges, EdgeLe));
    Assembled(doc, tnodes, edges);
    ProjectionInRange(doc, t);
  }

  lemma {:induction false} Assembled(doc: Doc, tnodes: seq<TNode>, edges: seq<Edge>)
    requires tnodes == ProjectedNodes(doc) && forall e :: multiset(edges)[e] == EmittedBelow(doc, |doc.nodes| + 1, e)
    ensures IsProjection(doc, Topology(tnodes, Sort(edges, EdgeLe)))
  {
    EdgeOrder();
    SortSorts(edges, EdgeLe);
    SortKeepsElements(edges, EdgeLe);
  }
}
