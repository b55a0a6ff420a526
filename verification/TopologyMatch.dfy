/**
 Typed pipeline graphs and the backtracking comparator that decides whether an observed graph has
 the expected shape.
 */
module TopologyMatch {
  import opened Common
  import opened Sorting

  datatype TNode = TNode(kind: string, plugin: Option<string>, extras: seq<(string, string)>)

  datatype Edge = Edge(src: int, dst: int, kind: string)

  datatype Topology = Topology(nodes: seq<TNode>, edges: seq<Edge>)

  datatype Reason =
    | NodeCount(observed: nat, expected: nat)
    | SignatureMismatch(expectedSig: TNode, observedSig: TNode)
    | EdgeStructure
    | OptionAssertion(at: nat)

  datatype MatchResult = Match | Mismatch(reason: Reason)

  predicate Within(e: Edge, n: nat) { 0 <= e.src < n && 0 <= e.dst < n }

  predicate InRange(t: Topology) {
    forall e :: e in t.edges ==> 0 <= e.src < |t.nodes| && 0 <= e.dst < |t.nodes|
  }

  /** Python's list index: a negative one counts from the end. */
  function Index(i: int, n: nat): int { if i < 0 then i + n else i }

  /** Every edge can be looked up in a list of the nodes' length. */
  predicate Indexable(t: Topology) { AllReach(t.edges, |t.nodes|) }

  function Wrap(e: Edge, n: nat): Edge { Edge(Index(e.src, n), Index(e.dst, n), e.kind) }

  function WrapAll(es: seq<Edge>, n: nat): seq<Edge> {
    if es == [] then [] else [Wrap(es[0], n)] + WrapAll(es[1..], n)
  }

  /** The edges as list indices read them. */
  function Wrapped(t: Topology): Topology { Topology(t.nodes, WrapAll(t.edges, |t.nodes|)) }

  predicate Reaches(e: Edge, n: nat) { 0 <= e.src + n && e.src < n && 0 <= e.dst + n && e.dst < n }

  predicate AllWithin(es: seq<Edge>, n: nat) { forall e :: e in es ==> Within(e, n) }

  predicate AllReach(es: seq<Edge>, n: nat) { forall e :: e in es ==> Reaches(e, n) }

  lemma {:induction false} WrapAllWithin(es: seq<Edge>, n: nat)
    ensures AllWithin(WrapAll(es, n), n) <==> AllReach(es, n)
    ensures AllWithin(es, n) ==> WrapAll(es, n) == es
  {
    if es != [] {
      WrapAllWithin(es[1..], n);
      FirstAndRest(es, n);
      FirstAndRest(WrapAll(es, n), n);
      assert WrapAll(es, n)[1..] == WrapAll(es[1..], n);
      assert es == [es[0]] + es[1..];
    }
  }

  lemma {:induction false} FirstAndRest(es: seq<Edge>, n: nat)
    requires es != []
    ensures AllWithin(es, n) <==> Within(es[0], n) && AllWithin(es[1..], n)
    ensures AllReach(es, n) <==> Reaches(es[0], n) && AllReach(es[1..], n)
  {
    assert forall e :: e in es <==> e == es[0] || e in es[1..];
  }

  lemma {:induction false} WrappedInRange(t: Topology)
    ensures InRange(Wrapped(t)) <==> Indexable(t)
    ensures InRange(t) ==> Wrapped(t) == t
  {
    WrapAllWithin(t.edges, |t.nodes|);
  }

  // ---- The two orders the comparator sorts by ----

  predicate EdgeLe(a: Edge, b: Edge) {
    if a.src != b.src then a.src < b.src
    else if a.dst != b.dst then a.dst < b.dst
    else StringLe(a.kind, b.kind)
  }

  predicate PairLe(a: (string, string), b: (string, string)) {
    if a.0 != b.0 then StringLe(a.0, b.0) else StringLe(a.1, b.1)
  }

  predicate ExtrasLe(a: seq<(string, string)>, b: seq<(string, string)>) { LexLe(a, b, PairLe) }

  /** The sort key of a plugin: an absent plugin sorts as the empty string. */
  function PluginKey(p: Option<string>): string { if p.None? then "" else p.value }

  predicate SigLe(a: TNode, b: TNode) {
    if a.kind != b.kind then StringLe(a.kind, b.kind)
    else if PluginKey(a.plugin) != PluginKey(b.plugin) then StringLe(PluginKey(a.plugin), PluginKey(b.plugin))
    else ExtrasLe(a.extras, b.extras)
  }

  lemma {:induction false} EdgeOrder()
    ensures TotalOrder(EdgeLe)
  {
    StringOrder();
  }

  lemma {:induction false} ExtrasOrder()
    ensures TotalOrder(ExtrasLe)
  {
    StringOrder();
    assert TotalOrder(PairLe);
    forall a, b ensures ExtrasLe(a, b) || ExtrasLe(b, a) {
      LexTotal(a, b, PairLe);
    }
    forall a, b | ExtrasLe(a, b) && ExtrasLe(b, a) ensures a == b {
      LexTotal(a, b, PairLe);
    }
    forall a, b, c | ExtrasLe(a, b) && ExtrasLe(b, c) ensures ExtrasLe(a, c) {
      LexTransitive(a, b, c, PairLe);
    }
  }

  lemma {:induction false} SigOrder()
    ensures Preorder(SigLe)
    ensures forall a, b :: SigLe(a, b) && SigLe(b, a) <==>
                           a.kind == b.kind && a.extras == b.extras && PluginKey(a.plugin) == PluginKey(b.plugin)
  {
    StringOrder();
    ExtrasOrder();
  }

  // ---- What "same shape" means ----

  ghost predicate Bijection(f: seq<nat>, n: nat) {
    && |f| == n
    && (forall i :: 0 <= i < n ==> f[i] < n)
    && (forall i, j :: 0 <= i < j < n ==> f[i] != f[j])
  }

  function MapEdge(e: Edge, f: seq<nat>): Edge
    requires 0 <= e.src < |f| && 0 <= e.dst < |f|
  {
    Edge(f[e.src], f[e.dst], e.kind)
  }

  function MapEdges(es: seq<Edge>, f: seq<nat>): (r: seq<Edge>)
    requires forall e :: e in es ==> 0 <= e.src < |f| && 0 <= e.dst < |f|
  {
    if es == [] then [] else [MapEdge(es[0], f)] + MapEdges(es[1..], f)
  }

  /** `f` renumbers the observed nodes so that nodes and edges (with multiplicity) become the expected ones. */
  ghost predicate Corresponds(expected: Topology, observed: Topology, f: seq<nat>) {
    && InRange(observed)
    && |expected.nodes| == |observed.nodes|
    && Bijection(f, |expected.nodes|)
    && (forall j :: 0 <= j < |f| ==> observed.nodes[j] == expected.nodes[f[j]])
    && multiset(MapEdges(observed.edges, f)) == multiset(expected.edges)
  }

  ghost predicate Isomorphic(expected: Topology, observed: Topology) {
    exists f: seq<nat> :: Corresponds(expected, observed, f)
  }

  /** The nodes of one kind and extras whose plugin is absent or empty, in declaration order. */
  function BlankPlugins(nodes: seq<TNode>, kind: string, extras: seq<(string, string)>): seq<TNode> {
    if nodes == [] then []
    else if nodes[0].kind == kind && nodes[0].extras == extras && PluginKey(nodes[0].plugin) == ""
    then [nodes[0]] + BlankPlugins(nodes[1..], kind, extras)
    else BlankPlugins(nodes[1..], kind, extras)
  }

  ghost predicate BlankPluginsAligned(a: Topology, b: Topology) {
    forall kind, extras :: BlankPlugins(a.nodes, kind, extras) == BlankPlugins(b.nodes, kind, extras)
  }

  ghost predicate NoEmptyPlugin(t: Topology) {
    forall n :: n in t.nodes ==> n.plugin != Some("")
  }

  /** The comparator's verdict, declaratively. */
  ghost predicate Matches(expected: Topology, observed: Topology) {
    Isomorphic(expected, observed) && BlankPluginsAligned(expected, observed)
  }

  // ---- Facts about renumbering ----

  lemma {:induction false} MapEdgesAt(es: seq<Edge>, f: seq<nat>)
    requires forall e :: e in es ==> 0 <= e.src < |f| && 0 <= e.dst < |f|
    ensures |MapEdges(es, f)| == |es|
    ensures forall i :: 0 <= i < |es| ==> MapEdges(es, f)[i] == MapEdge(es[i], f)
  {
    if es != [] {
      MapEdgesAt(es[1..], f);
    }
  }

  /** Renumbering injectively moves each edge's multiplicity along with it. */
  lemma {:induction false} MapEdgesCount(es: seq<Edge>, f: seq<nat>, n: nat, x: Edge)
    requires Bijection(f, n) && 0 <= x.src < n && 0 <= x.dst < n
    requires forall e :: e in es ==> 0 <= e.src < n && 0 <= e.dst < n
    ensures multiset(MapEdges(es, f))[MapEdge(x, f)] == multiset(es)[x]
  {
    if es != [] {
      MapEdgesCount(es[1..], f, n, x);
      assert es == [es[0]] + es[1..];
      assert MapEdge(es[0], f) == MapEdge(x, f) <==> es[0] == x;
    }
  }

  ghost predicate Hits(f: seq<nat>, y: nat) {
    exists i :: 0 <= i < |f| && f[i] == y
  }

  /** An injection of `0..n` into itself is onto. */
  lemma {:induction false} Onto(f: seq<nat>, n: nat, y: nat)
    requires Bijection(f, n) && y < n
    ensures Hits(f, y)
    decreases n
  {
    var last := f[n - 1];
    if last != y {
      // Exchange the values n - 1 and `last`, then drop the last slot.
      var g := seq(n - 1, i requires 0 <= i < n - 1 => if f[i] == n - 1 then last else f[i]);
      assert Bijection(g, n - 1);
      Onto(g, n - 1, if y == n - 1 then last else y);
      var i :| 0 <= i < n - 1 && g[i] == if y == n - 1 then last else y;
      assert f[i] == y;
    }
  }

  ghost predicate Inverse(f: seq<nat>, g: seq<nat>, n: nat) {
    && Bijection(f, n) && Bijection(g, n)
    && (forall i :: 0 <= i < n ==> g[f[i]] == i)
    && (forall i :: 0 <= i < n ==> f[g[i]] == i)
  }

  ghost function InverseOf(f: seq<nat>, n: nat): (g: seq<nat>)
    requires Bijection(f, n)
    ensures Inverse(f, g, n)
  {
    assert forall y: nat :: y < n ==> Hits(f, y) by {
      forall y: nat | y < n ensures Hits(f, y) { Onto(f, n, y); }
    }
    var g := seq(n, y requires 0 <= y < n => assert Hits(f, y); var i: nat :| i < n && f[i] == y; i);
    assert forall y :: 0 <= y < n ==> f[g[y]] == y;
    g
  }

  /** The identity renumbering. */
  function Identity(n: nat): seq<nat> { seq(n, i => i) }

  function Compose(f: seq<nat>, g: seq<nat>): seq<nat>
    requires forall i :: 0 <= i < |f| ==> f[i] < |g|
  {
    seq(|f|, i requires 0 <= i < |f| => g[f[i]])
  }

  lemma {:induction false} MapEdgesIdentity(es: seq<Edge>, n: nat)
    requires forall e :: e in es ==> 0 <= e.src < n && 0 <= e.dst < n
    ensures MapEdges(es, Identity(n)) == es
  {
    MapEdgesAt(es, Identity(n));
  }

  lemma {:induction false} MapEdgesCompose(es: seq<Edge>, f: seq<nat>, g: seq<nat>)
    requires |f| == |g| && forall i :: 0 <= i < |f| ==> f[i] < |g|
    requires forall e :: e in es ==> 0 <= e.src < |f| && 0 <= e.dst < |f|
    ensures forall e :: e in MapEdges(es, f) ==> 0 <= e.src < |g| && 0 <= e.dst < |g|
    ensures MapEdges(MapEdges(es, f), g) == MapEdges(es, Compose(f, g))
  {
    MapEdgesAt(es, f);
    MapEdgesAt(MapEdges(es, f), g);
    MapEdgesAt(es, Compose(f, g));
  }

  /** Read backwards: an edge of the renumbered graph is as frequent as its preimage. */
  lemma {:induction false} MapEdgesPreimage(es: seq<Edge>, f: seq<nat>, g: seq<nat>, n: nat, z: Edge)
    requires Inverse(f, g, n) && forall e :: e in es ==> 0 <= e.src < n && 0 <= e.dst < n
    ensures multiset(MapEdges(es, f))[z] == if Within(z, n) then multiset(es)[MapEdge(z, g)] else 0
  {
    if Within(z, n) {
      MapEdgesCount(es, f, n, MapEdge(z, g));
    } else {
      MapEdgesAt(es, f);
      assert z !in MapEdges(es, f);
    }
  }

  lemma {:induction false} MapEdgesRespectsMultisets(a: seq<Edge>, b: seq<Edge>, f: seq<nat>, n: nat)
    requires Bijection(f, n) && multiset(a) == multiset(b)
    requires forall e :: e in a ==> 0 <= e.src < n && 0 <= e.dst < n
    ensures forall e :: e in b ==> 0 <= e.src < n && 0 <= e.dst < n
    ensures multiset(MapEdges(a, f)) == multiset(MapEdges(b, f))
  {
    forall e | e in b ensures e in a { assert e in multiset(b); assert e in multiset(a); }
    var g := InverseOf(f, n);
    forall z ensures multiset(MapEdges(a, f))[z] == multiset(MapEdges(b, f))[z] {
      MapEdgesPreimage(a, f, g, n, z);
      MapEdgesPreimage(b, f, g, n, z);
    }
  }

  lemma {:induction false} ComposedEdges(middle: seq<Edge>, far: seq<Edge>, f: seq<nat>, g: seq<nat>)
    requires Bijection(f, |f|) && Bijection(g, |f|)
    requires forall e :: e in far ==> 0 <= e.src < |f| && 0 <= e.dst < |f|
    requires forall e :: e in middle ==> 0 <= e.src < |f| && 0 <= e.dst < |f|
    requires multiset(MapEdges(far, g)) == multiset(middle)
    ensures multiset(MapEdges(far, Compose(g, f))) == multiset(MapEdges(middle, f))
  {
    MapEdgesAt(far, g);
    MapEdgesRespectsMultisets(middle, MapEdges(far, g), f, |f|);
    MapEdgesCompose(far, g, f);
  }

  // ---- The verdict is an equivalence ----

  lemma {:induction false} MatchesReflexive(t: Topology)
    requires InRange(t)
    ensures Matches(t, t)
  {
    MapEdgesIdentity(t.edges, |t.nodes|);
    assert Corresponds(t, t, Identity(|t.nodes|));
  }

  lemma {:induction false} MatchedIsInRange(expected: Topology, observed: Topology, f: seq<nat>)
    requires Corresponds(expected, observed, f)
    ensures InRange(expected)
  {
    MapEdgesAt(observed.edges, f);
    forall e | e in expected.edges ensures Within(e, |expected.nodes|) {
      assert e in multiset(expected.edges);
      assert e in multiset(MapEdges(observed.edges, f));
    }
  }

  lemma {:induction false} InverseEdges(expected: Topology, observed: Topology, f: seq<nat>, g: seq<nat>)
    requires Corresponds(expected, observed, f) && Inverse(f, g, |f|)
    ensures InRange(expected)
    ensures multiset(MapEdges(expected.edges, g)) == multiset(observed.edges)
  {
    MatchedIsInRange(expected, observed, f);
    forall z ensures multiset(MapEdges(expected.edges, g))[z] == multiset(observed.edges)[z] {
      MapEdgesPreimage(expected.edges, g, f, |f|, z);
      if Within(z, |f|) {
        MapEdgesCount(observed.edges, f, |f|, z);
      } else {
        assert z !in observed.edges;
      }
    }
  }

  lemma {:induction false} MatchesSymmetric(expected: Topology, observed: Topology)
    requires Matches(expected, observed)
    ensures Matches(observed, expected)
  {
    var f :| Corresponds(expected, observed, f);
    var g := InverseOf(f, |f|);
    InverseEdges(expected, observed, f, g);
    assert Corresponds(observed, expected, g);
  }

  lemma {:induction false} ComposedBijection(f: seq<nat>, g: seq<nat>, n: nat)
    requires Bijection(f, n) && Bijection(g, n)
    ensures Bijection(Compose(g, f), n)
  {
    var h := Compose(g, f);
    forall i, j | 0 <= i < j < n ensures h[i] != h[j] {
      assert g[i] != g[j];
      assert h[i] == f[g[i]] && h[j] == f[g[j]];
    }
  }

  lemma {:induction false} ComposedCorrespondence(a: Topology, b: Topology, c: Topology, f: seq<nat>, g: seq<nat>)
    requires Corresponds(a, b, f) && Corresponds(b, c, g)
    ensures Corresponds(a, c, Compose(g, f))
  {
    ComposedBijection(f, g, |f|);
    ComposedEdges(b.edges, c.edges, f, g);
  }

  lemma {:induction false} MatchesTransitive(a: Topology, b: Topology, c: Topology)
    requires Matches(a, b) && Matches(b, c)
    ensures Matches(a, c)
  {
    var f :| Corresponds(a, b, f);
    var g :| Corresponds(b, c, g);
    ComposedCorrespondence(a, b, c, f, g);
  }

  // ---- The signature screen ----

  lemma {:induction false} BlankPluginsArePeers(nodes: seq<TNode>, k: TNode)
    requires PluginKey(k.plugin) == ""
    ensures Peers(nodes, k, SigLe) == BlankPlugins(nodes, k.kind, k.extras)
  {
    SigOrder();
    if nodes != [] {
      BlankPluginsArePeers(nodes[1..], k);
    }
  }

  /** Without its last place, a bijection maps what it took from there to where it sent it. */
  lemma {:induction false} ShrunkBijection(f: seq<nat>, n: nat, g: seq<nat>)
    requires n > 0 && Bijection(f, n) && |g| == n - 1
    requires forall i :: 0 <= i < n - 1 ==> g[i] == if f[i] == n - 1 then f[n - 1] else f[i]
    ensures Bijection(g, n - 1)
  {
  }

  lemma {:induction false} Replaced<T>(a: seq<T>, i: nat, x: T)
    requires i < |a|
    ensures multiset(a[i := x]) + multiset{a[i]} == multiset(a) + multiset{x}
  {
  }

  lemma {:induction false} LastApart<T>(a: seq<T>, n: nat)
    requires |a| == n + 1
    ensures multiset(a) == multiset(a[..n]) + multiset{a[n]}
  {
    assert a == a[..n] + [a[n]];
  }

  /** Taking an element out by moving the last one into its place. */
  lemma {:induction false} TakenOut<T>(a: seq<T>, i: nat)
    requires i < |a|
    ensures multiset(a) == multiset(a[i := a[|a| - 1]][..|a| - 1]) + multiset{a[i]}
  {
    var n := |a| - 1;
    Replaced(a, i, a[n]);
    LastApart(a[i := a[n]], n);
  }

  lemma {:induction false} AgreeWithoutOne<T>(a: seq<T>, b: seq<T>, n: nat, i: nat)
    requires |a| == |b| == n + 1 && i <= n && b[n] == a[i]
    requires multiset(a[i := a[n]][..n]) == multiset(b[..n])
    ensures multiset(a) == multiset(b)
  {
    TakenOut(a, i);
    LastApart(b, n);
  }

  lemma {:induction false} ShrunkMaps<T>(a: seq<T>, b: seq<T>, f: seq<nat>, n: nat, g: seq<nat>)
    requires |a| == |b| == n + 1 && Bijection(f, n + 1) && Bijection(g, n)
    requires forall j :: 0 <= j <= n ==> b[j] == a[f[j]]
    requires forall i :: 0 <= i < n ==> g[i] == if f[i] == n then f[n] else f[i]
    ensures forall j :: 0 <= j < n ==> b[..n][j] == a[f[n] := a[n]][..n][g[j]]
  {
    forall j | 0 <= j < n ensures b[..n][j] == a[f[n] := a[n]][..n][g[j]] { assert f[j] != f[n]; }
  }

  lemma {:induction false} CorrespondingNodesAgree(a: seq<TNode>, b: seq<TNode>, f: seq<nat>, n: nat)
    requires |a| == |b| == n && Bijection(f, n)
    requires forall j :: 0 <= j < n ==> b[j] == a[f[j]]
    ensures multiset(a) == multiset(b)
    decreases n
  {
    if n > 0 {
      var last := f[n - 1];
      var g := seq(n - 1, i requires 0 <= i < n - 1 => if f[i] == n - 1 then last else f[i]);
      ShrunkBijection(f, n, g);
      ShrunkMaps(a, b, f, n - 1, g);
      CorrespondingNodesAgree(a[last := a[n - 1]][..n - 1], b[..n - 1], g, n - 1);
      AgreeWithoutOne(a, b, n - 1, last);
    }
  }

  /** Nodes with a named plugin are alone in their group, so equal multisets group them alike. */
  lemma {:induction false} NamedPeersAgree(a: seq<TNode>, b: seq<TNode>, k: TNode)
    requires multiset(a) == multiset(b) && PluginKey(k.plugin) != ""
    ensures Peers(a, k, SigLe) == Peers(b, k, SigLe)
  {
    SigOrder();
    LonelyPeers(a, k, SigLe);
    LonelyPeers(b, k, SigLe);
  }

  lemma {:induction false} PeersAligned(a: Topology, b: Topology)
    requires multiset(a.nodes) == multiset(b.nodes)
    ensures SamePeers(a.nodes, b.nodes, SigLe) <==> BlankPluginsAligned(a, b)
  {
    if BlankPluginsAligned(a, b) {
      forall k: TNode ensures Peers(a.nodes, k, SigLe) == Peers(b.nodes, k, SigLe) {
        if PluginKey(k.plugin) != "" {
          NamedPeersAgree(a.nodes, b.nodes, k);
        } else {
          BlankPluginsArePeers(a.nodes, k);
          BlankPluginsArePeers(b.nodes, k);
        }
      }
    }
    if SamePeers(a.nodes, b.nodes, SigLe) {
      forall kind, extras ensures BlankPlugins(a.nodes, kind, extras) == BlankPlugins(b.nodes, kind, extras) {
        BlankPluginsArePeers(a.nodes, TNode(kind, None, extras));
        BlankPluginsArePeers(b.nodes, TNode(kind, None, extras));
      }
    }
  }

  /**
   The screen on sorted signatures passes an isomorphic pair exactly when nodes whose plugin is
   absent or empty are declared in the same order: the sort key does not tell the two apart.
   */
  lemma {:induction false} ScreenPasses(a: Topology, b: Topology)
    requires Isomorphic(a, b)
    ensures Sort(a.nodes, SigLe) == Sort(b.nodes, SigLe) <==> BlankPluginsAligned(a, b)
  {
    var f :| Corresponds(a, b, f);
    CorrespondingNodesAgree(a.nodes, b.nodes, f, |f|);
    SigOrder();
    SortsAgree(a.nodes, b.nodes, SigLe);
    PeersAligned(a, b);
  }

  lemma {:induction false} BlankPluginsWithoutEmpty(nodes: seq<TNode>, kind: string, extras: seq<(string, string)>)
    requires forall n :: n in nodes ==> n.plugin != Some("")
    ensures BlankPlugins(nodes, kind, extras) ==
            seq(multiset(nodes)[TNode(kind, None, extras)], _ => TNode(kind, None, extras))
  {
    if nodes != [] {
      BlankPluginsWithoutEmpty(nodes[1..], kind, extras);
      assert nodes == [nodes[0]] + nodes[1..];
    }
  }

  /** Without empty plugin names the verdict is isomorphism, nothing more and nothing less. */
  lemma {:induction false} MatchesIsIsomorphism(a: Topology, b: Topology)
    requires NoEmptyPlugin(a)
    ensures Matches(a, b) <==> Isomorphic(a, b)
  {
    if Isomorphic(a, b) {
      var f :| Corresponds(a, b, f);
      CorrespondingNodesAgree(a.nodes, b.nodes, f, |f|);
      forall n | n in b.nodes ensures n.plugin != Some("") {
        assert n in multiset(b.nodes);
        assert n in multiset(a.nodes);
      }
      forall kind, extras ensures BlankPlugins(a.nodes, kind, extras) == BlankPlugins(b.nodes, kind, extras) {
        BlankPluginsWithoutEmpty(a.nodes, kind, extras);
        BlankPluginsWithoutEmpty(b.nodes, kind, extras);
      }
    }
  }

  /** With them it is not: swapping an absent and an empty plugin keeps the graph but fails the screen. */
  lemma {:induction false} EmptyPluginBreaksTheScreen()
    ensures var absent, blank := TNode("transform", None, []), TNode("transform", Some(""), []);
            var a, b := Topology([absent, blank], []), Topology([blank, absent], []);
            Isomorphic(a, b) && !Matches(a, b)
  {
    var absent, blank := TNode("transform", None, []), TNode("transform", Some(""), []);
    var a, b := Topology([absent, blank], []), Topology([blank, absent], []);
    assert Corresponds(a, b, [1, 0]);
    assert BlankPlugins(a.nodes, "transform", [])[0] == absent;
    assert BlankPlugins(b.nodes, "transform", [])[0] == blank;
  }

  // ---- The backtracking search ----

  /** `m[i]` is the observed node playing expected node `i`, for the first `|m|` expected nodes. */
  ghost predicate PartialMap(expected: Topology, observed: Topology, m: seq<nat>) {
    && |m| <= |expected.nodes| == |observed.nodes|
    && (forall i :: 0 <= i < |m| ==> m[i] < |observed.nodes|)
    && (forall i, j :: 0 <= i < j < |m| ==> m[i] != m[j])
    && (forall i :: 0 <= i < |m| ==> observed.nodes[m[i]] == expected.nodes[i])
  }

  ghost predicate FullMap(expected: Topology, observed: Topology, m: seq<nat>) {
    PartialMap(expected, observed, m) && |m| == |expected.nodes|
  }

  /** No full mapping starts with `m`. */
  ghost predicate Stuck(expected: Topology, observed: Topology, m: seq<nat>) {
    forall full :: FullMap(expected, observed, full) ==> !(m <= full)
  }

  /** One more place: it takes what went to `j`, and whatever went there goes to the new end. */
  function Grown(m: seq<nat>, j: nat): (r: seq<nat>)
    ensures |r| == |m| + 1 && r[|m|] == j
    ensures forall i :: 0 <= i < |m| ==> r[i] == if m[i] == j then |m| else m[i]
  {
    seq(|m|, i requires 0 <= i < |m| => if m[i] == j then |m| else m[i]) + [j]
  }

  lemma {:induction false} GrownBijection(m: seq<nat>, j: nat)
    requires Bijection(m, |m|) && j <= |m|
    ensures Bijection(Grown(m, j), |m| + 1)
  {
  }

  lemma {:induction false} GrownMaps<T>(a: seq<T>, b: seq<T>, n: nat, j: nat, m: seq<nat>)
    requires |a| == |b| == n + 1 && |m| == n && j <= n && b[j] == a[n]
    requires forall i :: 0 <= i < n ==> m[i] < n && b[j := b[n]][..n][m[i]] == a[..n][i]
    ensures forall i :: 0 <= i <= n ==> Grown(m, j)[i] <= n && b[Grown(m, j)[i]] == a[i]
  {
    forall i | 0 <= i < n ensures Grown(m, j)[i] <= n && b[Grown(m, j)[i]] == a[i] {
      assert b[j := b[n]][..n][m[i]] == b[Grown(m, j)[i]];
    }
  }

  lemma {:induction false} WithoutOne<T>(a: seq<T>, b: seq<T>, n: nat, j: nat)
    requires |a| == |b| == n + 1 && multiset(a) == multiset(b) && j <= n && b[j] == a[n]
    ensures multiset(a[..n]) == multiset(b[j := b[n]][..n])
  {
    TakenOut(b, j);
    LastApart(a, n);
    assert multiset(a[..n]) == multiset(a) - multiset{a[n]};
    assert multiset(b[j := b[n]][..n]) == multiset(b) - multiset{a[n]};
  }

  /** Lists with the same elements can be lined up. */
  lemma {:induction false} LinedUp<T(!new)>(a: seq<T>, b: seq<T>) returns (m: seq<nat>)
    requires multiset(a) == multiset(b)
    ensures |a| == |b| && Bijection(m, |a|) && forall i :: 0 <= i < |a| ==> b[m[i]] == a[i]
    decreases |a|
  {
    assert |multiset(a)| == |a| && |multiset(b)| == |b|;
    if a == [] {
      m := [];
    } else {
      var n := |a| - 1;
      assert a[n] in multiset(a) && a[n] in multiset(b);
      var j: nat :| j < |b| && b[j] == a[n];
      WithoutOne(a, b, n, j);
      var shorter := LinedUp(a[..n], b[j := b[n]][..n]);
      GrownBijection(shorter, j);
      GrownMaps(a, b, n, j, shorter);
      m := Grown(shorter, j);
    }
  }

  /** When the signatures agree the search has somewhere to go. */
  lemma {:induction false} NotStuck(expected: Topology, observed: Topology)
    requires Sort(expected.nodes, SigLe) == Sort(observed.nodes, SigLe)
    ensures !Stuck(expected, observed, [])
  {
    SortKeepsElements(expected.nodes, SigLe);
    SortKeepsElements(observed.nodes, SigLe);
    var m := LinedUp(expected.nodes, observed.nodes);
    assert FullMap(expected, observed, m) && [] <= m;
  }

  /** A full mapping that starts with `m` goes on with an unused node of the right kind. */
  lemma {:induction false} NextChoice(expected: Topology, observed: Topology, m: seq<nat>, full: seq<nat>)
    requires FullMap(expected, observed, full) && |m| < |full| && m <= full
    ensures full[|m|] < |expected.nodes| && !Stuck(expected, observed, m + [full[|m|]])
    ensures observed.nodes[full[|m|]] == expected.nodes[|m|] && full[|m|] !in m
  {
    assert m + [full[|m|]] <= full;
    assert forall i :: 0 <= i < |m| ==> m[i] == full[i];
  }

  /** Without a way on from any next node there is none at all. */
  lemma {:induction false} StuckEverywhere(expected: Topology, observed: Topology, m: seq<nat>)
    requires |m| < |expected.nodes|
    requires forall k: nat :: k < |expected.nodes| ==> Stuck(expected, observed, m + [k])
    ensures Stuck(expected, observed, m)
  {
    forall full | FullMap(expected, observed, full) ensures !(m <= full) {
      if m <= full {
        NextChoice(expected, observed, m, full);
        assert false;
      }
    }
  }

  lemma {:induction false} WrongChoiceStuck(expected: Topology, observed: Topology, m: seq<nat>, j: nat)
    requires |m| < |expected.nodes| == |observed.nodes| && j < |observed.nodes|
    requires observed.nodes[j] != expected.nodes[|m|] || j in m
    ensures Stuck(expected, observed, m + [j])
  {
    forall full | FullMap(expected, observed, full) ensures !(m + [j] <= full) {
      if m <= full { NextChoice(expected, observed, m, full); }
    }
  }

  ghost predicate Completes(expected: Topology, observed: Topology, prefix: seq<nat>, f: seq<nat>) {
    && Corresponds(expected, observed, f)
    && |prefix| <= |f|
    && forall i :: 0 <= i < |prefix| ==> prefix[i] < |f| && f[prefix[i]] == i
  }

  /** No correspondence extends `m`. */
  ghost predicate Dead(expected: Topology, observed: Topology, m: seq<nat>) {
    forall f :: !Completes(expected, observed, m, f)
  }

  ghost predicate Found(expected: Topology, observed: Topology, m: seq<nat>) {
    exists f :: Completes(expected, observed, m, f) && |m| == |f|
  }

  /** No correspondence extends `m` by letting observed node `j` play the next expected node. */
  ghost predicate Rejected(expected: Topology, observed: Topology, m: seq<nat>, j: nat) {
    forall f :: Completes(expected, observed, m, f) && j < |f| ==> f[j] != |m|
  }

  method Invert(mapping: seq<nat>) returns (inv: seq<nat>)
    requires Bijection(mapping, |mapping|)
    ensures Inverse(mapping, inv, |mapping|)
  {
    var n := |mapping|;
    inv := seq(n, _ => 0);
    for i := 0 to n
      invariant |inv| == n
      invariant forall k :: 0 <= k < n ==> inv[k] < n
      invariant forall k :: 0 <= k < i ==> inv[mapping[k]] == k
    {
      inv := inv[mapping[i] := i];
    }
    ghost var g := InverseOf(mapping, n);
    assert forall j :: 0 <= j < n ==> inv[j] == g[j] by {
      forall j | 0 <= j < n ensures inv[j] == g[j] { assert mapping[g[j]] == j; }
    }
    assert inv == g;
  }

  lemma {:induction false} LeafIsComplete(expected: Topology, observed: Topology, m: seq<nat>, inv: seq<nat>)
    requires PartialMap(expected, observed, m) && InRange(observed) && Inverse(m, inv, |expected.nodes|)
    requires multiset(MapEdges(observed.edges, inv)) == multiset(expected.edges)
    ensures Completes(expected, observed, m, inv)
  {
    forall j | 0 <= j < |inv| ensures observed.nodes[j] == expected.nodes[inv[j]] {
      assert m[inv[j]] == j;
    }
  }

  lemma {:induction false} LeafIsUnique(expected: Topology, observed: Topology, m: seq<nat>, inv: seq<nat>)
    requires PartialMap(expected, observed, m) && Inverse(m, inv, |expected.nodes|)
    ensures forall f :: Completes(expected, observed, m, f) ==> f == inv
  {
    forall f | Completes(expected, observed, m, f) ensures f == inv {
      forall j | 0 <= j < |inv| ensures f[j] == inv[j] { assert m[inv[j]] == j; }
    }
  }

  /** The node a correspondence lets play the next part is free and of the right kind. */
  lemma {:induction false} NextPlayed(expected: Topology, observed: Topology, m: seq<nat>, f: seq<nat>, j: nat)
    requires Completes(expected, observed, m, f) && j < |f| && f[j] == |m|
    ensures observed.nodes[j] == expected.nodes[|m|] && j !in m && Completes(expected, observed, m + [j], f)
  {
  }

  /** A node that is taken, differs, or was tried in vain is not the next one in any correspondence. */
  lemma {:induction false} ChoiceExcluded(expected: Topology, observed: Topology, m: seq<nat>, j: nat)
    requires |m| < |expected.nodes| == |observed.nodes| && j < |observed.nodes|
    requires observed.nodes[j] != expected.nodes[|m|] || j in m || Dead(expected, observed, m + [j])
    ensures Rejected(expected, observed, m, j)
  {
    forall f | Completes(expected, observed, m, f) && j < |f| ensures f[j] != |m| {
      if f[j] == |m| { NextPlayed(expected, observed, m, f, j); }
    }
  }

  lemma {:induction false} ChoiceTaken(expected: Topology, observed: Topology, m: seq<nat>, f: seq<nat>)
    requires Completes(expected, observed, m, f) && Hits(f, |m|)
    ensures exists k: nat :: k < |expected.nodes| && !Rejected(expected, observed, m, k)
  {
    var k :| 0 <= k < |f| && f[k] == |m|;
    assert !Rejected(expected, observed, m, k);
  }

  lemma {:induction false} AllChoicesExcluded(expected: Topology, observed: Topology, m: seq<nat>)
    requires |m| < |expected.nodes|
    requires forall k: nat :: k < |expected.nodes| ==> Rejected(expected, observed, m, k)
    ensures Dead(expected, observed, m)
  {
    forall f ensures !Completes(expected, observed, m, f) {
      if Completes(expected, observed, m, f) {
        Onto(f, |f|, |m|);
        ChoiceTaken(expected, observed, m, f);
      }
    }
  }

  class Search {
    const expected: Topology
    const observed: Topology
    var mapping: seq<nat>
    var used: set<nat>

    constructor (expected: Topology, observed: Topology)
      requires |expected.nodes| == |observed.nodes|
      ensures this.expected == expected && this.observed == observed
      ensures mapping == [] && Valid()
    {
      this.expected, this.observed := expected, observed;
      mapping, used := [], {};
    }

    ghost predicate Valid()
      reads this
    {
      PartialMap(expected, observed, mapping) && used == set j | j in mapping
    }

    /** An answer of the search: a correspondence, or the state it started from, or an `IndexError` from a leaf. */
    ghost predicate Answered(found: Option<bool>, m: seq<nat>, u: set<nat>)
      reads this
    {
      match found
      case None => !Indexable(observed)
      case Some(true) => Valid() && Found(expected, Wrapped(observed), mapping)
      case Some(false) => Valid() && mapping == m && used == u
    }

    method Extend() returns (found: Option<bool>)
      requires Valid()
      modifies this
      ensures Answered(found, old(mapping), old(used))
      ensures found == Some(false) ==> Hopeless(old(mapping))
      decreases |expected.nodes| - |mapping|, 2
    {
      if |mapping| == |expected.nodes| {
        found := EdgesReproduced();
      } else {
        found := Branch();
      }
    }

    /** Try every observed node for expected node `|mapping|`, undoing each choice that fails. */
    method Branch() returns (found: Option<bool>)
      requires Valid() && |mapping| < |expected.nodes|
      modifies this
      ensures Answered(found, old(mapping), old(used))
      ensures found == Some(false) ==> Hopeless(old(mapping))
      decreases |expected.nodes| - |mapping|, 1
    {
      ghost var m, u := mapping, used;
      for j := 0 to |expected.nodes|
        invariant Answered(Some(false), m, u) && RefutedBelow(m, j)
      {
        if observed.nodes[j] != expected.nodes[|mapping|] || j in used {
          RefutedAtOnce(m, j);
          continue;
        }
        found := ExtendWith(j);
        if found != Some(false) {
          return;
        }
      }
      NoChoiceLeft(m);
      found := Some(false);
    }

    lemma {:induction false} RefutedAtOnce(m: seq<nat>, j: nat)
      requires |m| < |expected.nodes| == |observed.nodes| && j < |observed.nodes|
      requires observed.nodes[j] != expected.nodes[|m|] || j in m
      ensures Refuted(m, j)
    {
      ChoiceExcluded(expected, Wrapped(observed), m, j);
      WrongChoiceStuck(expected, observed, m, j);
    }

    ghost predicate RefutedBelow(m: seq<nat>, j: nat) { j == 0 || (RefutedBelow(m, j - 1) && Refuted(m, j - 1)) }

    lemma {:induction false} RefutedAt(m: seq<nat>, j: nat, k: nat)
      requires RefutedBelow(m, j) && k < j
      ensures Refuted(m, k)
    {
      if k < j - 1 { RefutedAt(m, j - 1, k); }
    }

    lemma {:induction false} NoChoiceLeft(m: seq<nat>)
      requires |m| < |expected.nodes| && RefutedBelow(m, |expected.nodes|)
      ensures Hopeless(m)
    {
      forall k: nat | k < |expected.nodes| ensures Refuted(m, k) { RefutedAt(m, |expected.nodes|, k); }
      forall k: nat | k < |expected.nodes| ensures Rejected(expected, Wrapped(observed), m, k) {
        assert Refuted(m, k);
      }
      AllChoicesExcluded(expected, Wrapped(observed), m);
      if !Indexable(observed) {
        forall k: nat | k < |expected.nodes| ensures Stuck(expected, observed, m + [k]) {
          assert Refuted(m, k);
        }
        StuckEverywhere(expected, observed, m);
      }
    }

    /** No correspondence extends the mapping; where leaves raise, none was reached. */
    ghost predicate Hopeless(m: seq<nat>) {
      Dead(expected, Wrapped(observed), m) && (!Indexable(observed) ==> Stuck(expected, observed, m))
    }

    ghost predicate Refuted(m: seq<nat>, j: nat) {
      Rejected(expected, Wrapped(observed), m, j) && (!Indexable(observed) ==> Stuck(expected, observed, m + [j]))
    }

    method ExtendWith(j: nat) returns (found: Option<bool>)
      requires Valid() && |mapping| < |expected.nodes|
      requires j < |observed.nodes| && observed.nodes[j] == expected.nodes[|mapping|] && j !in used
      modifies this
      ensures Answered(found, old(mapping), old(used))
      ensures found == Some(false) ==> Refuted(old(mapping), j)
      decreases |expected.nodes| - |mapping|, 0
    {
      mapping := mapping + [j];
      used := used + {j};
      found := Extend();
      if found == Some(false) {
        used := used - {j};
        mapping := mapping[..|mapping| - 1];
        assert mapping == old(mapping);
        ChoiceExcluded(expected, Wrapped(observed), mapping, j);
      }
    }

    /** The leaf of the search: does the complete correspondence reproduce the expected edges? */
    method EdgesReproduced() returns (ok: Option<bool>)
      requires Valid() && |mapping| == |expected.nodes|
      ensures ok.None? <==> !Indexable(observed)
      ensures ok == Some(true) ==> Found(expected, Wrapped(observed), mapping)
      ensures ok == Some(false) ==> Dead(expected, Wrapped(observed), mapping)
    {
      var inv := Invert(mapping);
      if !Indexable(observed) {
        return None;
      }
      WrappedInRange(observed);
      var wrapped := Wrapped(observed);
      ok := Some(Sort(MapEdges(wrapped.edges, inv), EdgeLe) == Sort(expected.edges, EdgeLe));
      EdgeOrder();
      SortComparesMultisets(MapEdges(wrapped.edges, inv), expected.edges, EdgeLe);
      if ok.value { LeafIsComplete(expected, wrapped, mapping, inv); }
      LeafIsUnique(expected, wrapped, mapping, inv);
    }
  }

  method FirstDifference(a: seq<TNode>, b: seq<TNode>) returns (i: nat)
    requires |a| == |b| && a != b
    ensures i < |a| && a[i] != b[i] && a[..i] == b[..i]
  {
    i := 0;
    while i + 1 < |a| && a[i] == b[i]
      invariant i < |a| && a[..i] == b[..i]
    {
      i := i + 1;
    }
    assert a == a[..i] + [a[i]] + a[i + 1..] && b == b[..i] + [b[i]] + b[i + 1..];
  }

  /** `topologies_match` up to its option assertions; `None` is an `IndexError`. */
  method TopologiesMatch(expected: Topology, observed: Topology) returns (r: Option<MatchResult>)
    ensures r.None? <==> !Indexable(observed) && Sort(expected.nodes, SigLe) == Sort(observed.nodes, SigLe)
    ensures r == Some(Match) <==> Matches(expected, Wrapped(observed))
    ensures r == Some(Mismatch(NodeCount(|observed.nodes|, |expected.nodes|))) <==>
            |expected.nodes| != |observed.nodes|
    ensures r == Some(Mismatch(EdgeStructure)) ==> !Isomorphic(expected, Wrapped(observed))
    ensures r.Some? && r.value.Mismatch? ==> !r.value.reason.OptionAssertion?
    ensures r.Some? && r.value.Mismatch? && r.value.reason.SignatureMismatch? ==>
              !BlankPluginsAligned(expected, observed) || !Isomorphic(expected, Wrapped(observed))
  {
    SortKeepsElements(expected.nodes, SigLe);
    SortKeepsElements(observed.nodes, SigLe);
    assert |multiset(expected.nodes)| == |expected.nodes| && |multiset(observed.nodes)| == |observed.nodes|;
    if |expected.nodes| != |observed.nodes| {
      return Some(Mismatch(NodeCount(|observed.nodes|, |expected.nodes|)));
    }
    var expSigs := Sort(expected.nodes, SigLe);
    var obsSigs := Sort(observed.nodes, SigLe);
    VerdictBySearch(expected, Wrapped(observed));
    if expSigs != obsSigs {
      var i := FirstDifference(expSigs, obsSigs);
      return Some(Mismatch(SignatureMismatch(expSigs[i], obsSigs[i])));
    }
    var search := new Search(expected, observed);
    var found := search.Extend();
    NotStuck(expected, observed);
    WrappedInRange(observed);
    return if found.None? then None else Some(if found.value then Match else Mismatch(EdgeStructure));
  }

  lemma {:induction false} VerdictBySearch(expected: Topology, observed: Topology)
    ensures Matches(expected, observed) <==>
            && Sort(expected.nodes, SigLe) == Sort(observed.nodes, SigLe)
            && Isomorphic(expected, observed)
    ensures Isomorphic(expected, observed) <==> !Dead(expected, observed, [])
  {
    if Isomorphic(expected, observed) {
      ScreenPasses(expected, observed);
      var f :| Corresponds(expected, observed, f);
      assert Completes(expected, observed, [], f);
    }
  }
}
