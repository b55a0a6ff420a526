/**
 The options of a pipeline as the comparator sees them: one table per node kind and per plugin, with
 the numbers of the nodes' conditions under a name of their own, and the assertions a scenario makes
 about them.
 */
module OptionValues {
  import opened Common
  import opened Sorting
  import opened TopologyMatch
  import opened TopologyProjection

  /** The name the numbers are kept under, and the name an assertion asks for one of them by. */
  const LITERALS := "condition_literals"
  const LITERAL := "condition_literal"

  type Bucket = map<string, Value>

  type OptionTable = map<string, Bucket>

  datatype Assertion = Assertion(key: string, name: string, value: Value)

  function At(bucket: Bucket, name: string): Option<Value> {
    if name in bucket then Some(bucket[name]) else None
  }

  function Lookup(t: OptionTable, key: string, name: string): Option<Value> {
    if key in t then At(t[key], name) else None
  }

  // ---- What the table holds ----

  /** The node counts under its kind and under its plugin, unless they are absent or empty. */
  predicate Under(n: NodeSpec, key: string) {
    key != "" && (n.nodeType == Some(key) || n.plugin == Some(key))
  }

  predicate Sets(n: NodeSpec, key: string, name: string) { Under(n, key) && name in n.options }

  /** The last of the first `n` nodes to set an option under a key; -1 if none does. */
  ghost function LastSetter(nodes: seq<NodeSpec>, n: nat, key: string, name: string): (i: int)
    requires n <= |nodes|
    ensures -1 <= i < n && (i >= 0 ==> Sets(nodes[i], key, name))
    ensures forall k :: i < k < n ==> !Sets(nodes[k], key, name)
  {
    if n == 0 then -1 else if Sets(nodes[n - 1], key, name) then n - 1 else LastSetter(nodes, n - 1, key, name)
  }

  /** Some node under the key, from `lo` on, has numbers in its condition. */
  ghost predicate HasLiterals(nodes: seq<NodeSpec>, lo: int, n: nat, key: string)
    requires n <= |nodes|
  {
    exists j :: 0 <= j < n && lo <= j && Under(nodes[j], key) && nodes[j].literals != []
  }

  ghost predicate Gathers(nodes: seq<NodeSpec>, lo: int, n: nat, key: string, x: real)
    requires n <= |nodes|
  {
    exists j :: 0 <= j < n && lo <= j && Under(nodes[j], key) && x in nodes[j].literals
  }

  predicate Lists(v: Value, x: real) { v.Items? && Number(x) in v.items }

  predicate Ascending(v: Value) {
    && v.Items? && (forall i :: 0 <= i < |v.items| ==> v.items[i].Number?)
    && (forall i, j :: 0 <= i < j < |v.items| ==> v.items[i].number < v.items[j].number)
  }

  /** What the last setter under the key gave the option. */
  ghost function RawEntry(nodes: seq<NodeSpec>, n: nat, key: string, name: string): Option<Value>
    requires n <= |nodes|
  {
    var i := LastSetter(nodes, n, key, name);
    if i < 0 then None else Some(nodes[i].options[name])
  }

  /**
   What the first `n` nodes leave under a key and a name: the value of the last node to set it. The numbers are
   the exception: those of all nodes under the key are listed in order, together with the numbers an option of
   that very name gave, but the last node with such an option makes those before it forgotten.
   */
  ghost predicate IsEntry(nodes: seq<NodeSpec>, n: nat, key: string, name: string, v: Option<Value>)
    requires n <= |nodes|
  {
    var i, raw := LastSetter(nodes, n, key, name), RawEntry(nodes, n, key, name);
    if name == LITERALS && HasLiterals(nodes, i, n, key) then
      && v.Some? && Ascending(v.value)
      && forall x :: Lists(v.value, x) <==> Gathers(nodes, i, n, key, x) || (raw.Some? && Lists(raw.value, x))
    else v == raw
  }

  ghost predicate IsTable(nodes: seq<NodeSpec>, t: OptionTable) {
    forall key, name :: IsEntry(nodes, |nodes|, key, name, Lookup(t, key, name))
  }

  lemma {:induction false} AscendingHead(v: Value, w: Value)
    requires Ascending(v) && Ascending(w) && v.items != [] && w.items != []
    requires forall x :: Lists(v, x) <==> Lists(w, x)
    ensures v.items[0] == w.items[0]
  {
    assert Lists(v, v.items[0].number) && Lists(w, w.items[0].number);
    var i :| 0 <= i < |w.items| && w.items[i] == v.items[0];
    var j :| 0 <= j < |v.items| && v.items[j] == w.items[0];
  }

  lemma {:induction false} AscendingTail(v: Value, w: Value)
    requires Ascending(v) && Ascending(w) && v.items != [] && w.items != [] && v.items[0] == w.items[0]
    requires forall x :: Lists(v, x) <==> Lists(w, x)
    ensures Ascending(Items(v.items[1..])) && Ascending(Items(w.items[1..]))
    ensures forall x :: Lists(Items(v.items[1..]), x) <==> Lists(Items(w.items[1..]), x)
  {
    forall x ensures Lists(Items(v.items[1..]), x) <==> Lists(v, x) && Number(x) != v.items[0] { ListsTail(v, x); }
    forall x ensures Lists(Items(w.items[1..]), x) <==> Lists(w, x) && Number(x) != w.items[0] { ListsTail(w, x); }
  }

  lemma {:induction false} ListsTail(v: Value, x: real)
    requires Ascending(v) && v.items != []
    ensures Lists(Items(v.items[1..]), x) <==> Lists(v, x) && Number(x) != v.items[0]
  {
    assert v.items == [v.items[0]] + v.items[1..];
  }

  /** An ascending list is determined by what it lists. */
  lemma {:induction false} AscendingUnique(v: Value, w: Value)
    requires Ascending(v) && Ascending(w) && forall x :: Lists(v, x) <==> Lists(w, x)
    ensures v == w
    decreases |v.items|
  {
    if v.items == [] {
      if w.items != [] { assert Lists(w, w.items[0].number); }
    } else {
      assert Lists(v, v.items[0].number);
      AscendingHead(v, w);
      AscendingTail(v, w);
      AscendingUnique(Items(v.items[1..]), Items(w.items[1..]));
      assert v.items == [v.items[0]] + v.items[1..] && w.items == [w.items[0]] + w.items[1..];
    }
  }

  lemma {:induction false} EntryUnique(
    nodes: seq<NodeSpec>, key: string, name: string, v: Option<Value>, w: Option<Value>)
    requires IsEntry(nodes, |nodes|, key, name, v) && IsEntry(nodes, |nodes|, key, name, w)
    ensures v == w
  {
    if name == LITERALS && HasLiterals(nodes, LastSetter(nodes, |nodes|, key, name), |nodes|, key) {
      AscendingUnique(v.value, w.value);
    }
  }

  // ---- Filling the table ----

  /** What Python can make a set of and sort together with numbers. */
  predicate Countable(v: Value) {
    || (v.Text? && v.text == "") || v == Entries(map[])
    || (v.Items? && forall x :: x in v.items ==> x.Number?)
  }

  function Numbers(v: Option<Value>): (xs: seq<real>)
    requires v.Some? ==> Countable(v.value)
    ensures forall x :: x in xs <==> v.Some? && Lists(v.value, x)
  {
    if v.Some? && v.value.Items? then NumbersOf(v.value.items) else []
  }

  function NumbersOf(vs: seq<Value>): (xs: seq<real>)
    requires forall v :: v in vs ==> v.Number?
    ensures |xs| == |vs| && forall i :: 0 <= i < |vs| ==> vs[i] == Number(xs[i])
    ensures forall x :: x in xs <==> Number(x) in vs
  {
    if vs == [] then [] else [vs[0].number] + NumbersOf(vs[1..])
  }

  function ValuesOf(xs: seq<real>): (vs: seq<Value>)
    ensures |vs| == |xs| && forall i :: 0 <= i < |xs| ==> vs[i] == Number(xs[i])
    ensures forall x :: x in xs <==> Number(x) in vs
  {
    if xs == [] then [] else [Number(xs[0])] + ValuesOf(xs[1..])
  }

  predicate RealLe(x: real, y: real) { x <= y }

  lemma {:induction false} SortedSet(xs: seq<real>)
    ensures var ys := Sort(Deduped(xs), RealLe);
            && (forall x :: x in ys <==> x in xs)
            && forall i, j :: 0 <= i < j < |ys| ==> ys[i] < ys[j]
  {
    var ds := Deduped(xs);
    var ys := Sort(ds, RealLe);
    SortSorts(ds, RealLe);
    SortKeepsElements(ds, RealLe);
    forall x ensures x in ys <==> x in ds { assert x in multiset(ys) <==> x in multiset(ds); }
    assert Elements(ys) == Elements(ds);
    Pigeonhole(ds);
    Pigeonhole(ys);
  }

  /** The numbers in order, once each. */
  function InOrder(xs: seq<real>): (v: Value)
    ensures Ascending(v) && forall x :: Lists(v, x) <==> x in xs
  {
    SortedSet(xs);
    Items(ValuesOf(Sort(Deduped(xs), RealLe)))
  }

  /** `sorted(set(prior) | set(literals))` */
  function Merged(prior: Option<Value>, literals: seq<real>): (v: Value)
    requires prior.Some? ==> Countable(prior.value)
    ensures Ascending(v)
    ensures forall x :: Lists(v, x) <==> x in literals || (prior.Some? && Lists(prior.value, x))
  {
    InOrder(Numbers(prior) + literals)
  }

  /** What the numbers of a node find under their name, once its options are in. */
  function Prior(bucket: Bucket, n: NodeSpec): Option<Value> { At(bucket + n.options, LITERALS) }

  /** What one node makes of a bucket; nothing when the numbers cannot be merged with what is there. */
  function Updated(bucket: Bucket, n: NodeSpec): Option<Bucket> {
    var overlaid := bucket + n.options;
    var prior := Prior(bucket, n);
    if n.literals == [] then Some(overlaid)
    else if prior.Some? && !Countable(prior.value) then None
    else Some(overlaid[LITERALS := Merged(prior, n.literals)])
  }

  /** At node `j` the numbers meet an option of their name that they cannot be merged with. */
  ghost predicate Clashes(nodes: seq<NodeSpec>, j: nat, key: string)
    requires j < |nodes|
  {
    && Under(nodes[j], key) && nodes[j].literals != []
    && var raw := RawEntry(nodes, j + 1, key, LITERALS); raw.Some? && !Countable(raw.value)
  }

  ghost predicate ReadableUnder(nodes: seq<NodeSpec>, key: string) {
    forall j: nat :: j < |nodes| ==> !Clashes(nodes, j, key)
  }

  /** The table can be built at all. */
  ghost predicate Readable(nodes: seq<NodeSpec>) { forall key :: ReadableUnder(nodes, key) }

  lemma {:induction false} LastSetterStays(nodes: seq<NodeSpec>, j: nat, n: nat, key: string, name: string)
    requires n <= |nodes| && LastSetter(nodes, n, key, name) <= j < n
    ensures LastSetter(nodes, j + 1, key, name) == LastSetter(nodes, n, key, name)
  {
    if j + 1 < n { LastSetterStays(nodes, j, n - 1, key, name); }
  }

  /** Numbers listed since an option of their name are proof that it could be merged with. */
  lemma {:induction false} MergedBefore(nodes: seq<NodeSpec>, n: nat, key: string)
    requires n <= |nodes| && forall j: nat :: j < n ==> !Clashes(nodes, j, key)
    requires HasLiterals(nodes, LastSetter(nodes, n, key, LITERALS), n, key)
    ensures var raw := RawEntry(nodes, n, key, LITERALS); raw.Some? ==> Countable(raw.value)
  {
    var i := LastSetter(nodes, n, key, LITERALS);
    var j :| 0 <= j < n && i <= j && Under(nodes[j], key) && nodes[j].literals != [];
    LastSetterStays(nodes, j, n, key, LITERALS);
    assert !Clashes(nodes, j, key);
  }

  // ---- One more node ----

  /** Once node `n` has been counted under the keys `done`, and the nodes before it under all. */
  ghost predicate Partway(nodes: seq<NodeSpec>, n: nat, done: set<string>, t: OptionTable)
    requires n < |nodes|
  {
    forall key, name :: IsEntry(nodes, if key in done then n + 1 else n, key, name, Lookup(t, key, name))
  }

  /** A node leaves the entries of the keys it is not under. */
  lemma {:induction false} ElsewhereStays(nodes: seq<NodeSpec>, n: nat, key: string, name: string, v: Option<Value>)
    requires n < |nodes| && !Under(nodes[n], key)
    ensures IsEntry(nodes, n, key, name, v) <==> IsEntry(nodes, n + 1, key, name, v)
  {
    var i := LastSetter(nodes, n, key, name);
    assert LastSetter(nodes, n + 1, key, name) == i;
    assert HasLiterals(nodes, i, n + 1, key) <==> HasLiterals(nodes, i, n, key);
    forall x ensures Gathers(nodes, i, n + 1, key, x) <==> Gathers(nodes, i, n, key, x) { }
  }

  lemma {:induction false} PlainNext(nodes: seq<NodeSpec>, n: nat, m: nat, key: string, name: string, v: Option<Value>)
    requires n < |nodes| && n <= m <= n + 1 && Under(nodes[n], key) && IsEntry(nodes, m, key, name, v)
    requires name != LITERALS || nodes[n].literals == []
    ensures IsEntry(nodes, n + 1, key, name, if name in nodes[n].options then Some(nodes[n].options[name]) else v)
  {
    var i := LastSetter(nodes, n, key, name);
    if name in nodes[n].options {
      assert LastSetter(nodes, n + 1, key, name) == n;
      assert name == LITERALS ==> !HasLiterals(nodes, n, n + 1, key);
    } else {
      assert LastSetter(nodes, n + 1, key, name) == i;
      assert name == LITERALS ==> (HasLiterals(nodes, i, n + 1, key) <==> HasLiterals(nodes, i, n, key));
      forall x ensures name == LITERALS ==> (Gathers(nodes, i, n + 1, key, x) <==> Gathers(nodes, i, n, key, x)) { }
    }
  }

  lemma {:induction false} LiteralsNext(nodes: seq<NodeSpec>, n: nat, m: nat, key: string, v: Option<Value>, w: Value)
    requires n < |nodes| && n <= m <= n + 1 && Under(nodes[n], key) && nodes[n].literals != []
    requires IsEntry(nodes, m, key, LITERALS, v) && Ascending(w)
    requires var prior := if LITERALS in nodes[n].options then Some(nodes[n].options[LITERALS]) else v;
             forall x :: Lists(w, x) <==> x in nodes[n].literals || (prior.Some? && Lists(prior.value, x))
    ensures IsEntry(nodes, n + 1, key, LITERALS, Some(w))
  {
    var before, i := LastSetter(nodes, n, key, LITERALS), LastSetter(nodes, n + 1, key, LITERALS);
    assert HasLiterals(nodes, i, n + 1, key);
    forall x
      ensures Gathers(nodes, i, n + 1, key, x) <==>
              x in nodes[n].literals || (i == before && Gathers(nodes, i, n, key, x))
    {
      GathersNext(nodes, i, n, key, x);
    }
  }

  lemma {:induction false} GathersNext(nodes: seq<NodeSpec>, lo: int, n: nat, key: string, x: real)
    requires lo <= n < |nodes| && Under(nodes[n], key)
    ensures Gathers(nodes, lo, n + 1, key, x) <==> x in nodes[n].literals || Gathers(nodes, lo, n, key, x)
  {
  }

  /** A bucket before node `n` was counted in it, or after, is the bucket after once it is counted in. */
  lemma {:induction false} UpdatedNext(nodes: seq<NodeSpec>, n: nat, m: nat, key: string, bucket: Bucket)
    requires n < |nodes| && n <= m <= n + 1 && Under(nodes[n], key)
    requires forall name :: IsEntry(nodes, m, key, name, At(bucket, name))
    requires Updated(bucket, nodes[n]).Some?
    ensures forall name :: IsEntry(nodes, n + 1, key, name, At(Updated(bucket, nodes[n]).value, name))
  {
    var after := Updated(bucket, nodes[n]).value;
    forall name ensures IsEntry(nodes, n + 1, key, name, At(after, name)) {
      if name == LITERALS && nodes[n].literals != [] {
        LiteralsNext(nodes, n, m, key, At(bucket, name), after[LITERALS]);
      } else {
        PlainNext(nodes, n, m, key, name, At(bucket, name));
      }
    }
  }

  /** What is under the numbers' name can be merged with exactly when the option it goes back to can. */
  lemma {:induction false} CountableEntry(nodes: seq<NodeSpec>, m: nat, key: string, v: Option<Value>)
    requires m <= |nodes| && IsEntry(nodes, m, key, LITERALS, v)
    requires forall j: nat :: j < m ==> !Clashes(nodes, j, key)
    ensures var raw := RawEntry(nodes, m, key, LITERALS);
            v.Some? && !Countable(v.value) <==> raw.Some? && !Countable(raw.value)
  {
    if HasLiterals(nodes, LastSetter(nodes, m, key, LITERALS), m, key) {
      MergedBefore(nodes, m, key);
      AscendingCountable(v.value);
    }
  }

  lemma {:induction false} AscendingCountable(v: Value)
    requires Ascending(v)
    ensures Countable(v)
  {
  }

  lemma {:induction false} PriorCountable(nodes: seq<NodeSpec>, n: nat, m: nat, key: string, bucket: Bucket)
    requires n < |nodes| && n <= m <= n + 1 && Under(nodes[n], key)
    requires IsEntry(nodes, m, key, LITERALS, At(bucket, LITERALS))
    requires forall j: nat :: j < m ==> !Clashes(nodes, j, key)
    ensures var prior, raw := Prior(bucket, nodes[n]), RawEntry(nodes, n + 1, key, LITERALS);
            prior.Some? && !Countable(prior.value) <==> raw.Some? && !Countable(raw.value)
  {
    if LITERALS in nodes[n].options {
      assert LastSetter(nodes, n + 1, key, LITERALS) == n;
    } else {
      assert LastSetter(nodes, n + 1, key, LITERALS) == LastSetter(nodes, n, key, LITERALS);
      assert Prior(bucket, nodes[n]) == At(bucket, LITERALS);
      CountableEntry(nodes, m, key, At(bucket, LITERALS));
    }
  }

  method CountUnder(ghost nodes: seq<NodeSpec>, ghost n: nat, ghost done: set<string>, t: OptionTable, node: NodeSpec,
                    key: string)
    returns (r: Option<OptionTable>)
    requires n < |nodes| && node == nodes[n] && Under(node, key) && Partway(nodes, n, done, t)
    requires forall j: nat, k :: j < (if k in done then n + 1 else n) ==> !Clashes(nodes, j, k)
    ensures r.None? <==> Clashes(nodes, n, key)
    ensures r.Some? ==> Partway(nodes, n, done + {key}, r.value)
  {
    var bucket: Bucket := if key in t then t[key] else map[];
    ghost var m := if key in done then n + 1 else n;
    assert forall name :: At(bucket, name) == Lookup(t, key, name);
    var after := Updated(bucket, node);
    PriorCountable(nodes, n, m, key, bucket);
    if after.None? {
      return None;
    }
    UpdatedNext(nodes, n, m, key, bucket);
    r := Some(t[key := after.value]);
    forall k, name
      ensures IsEntry(nodes, if k in done + {key} then n + 1 else n, k, name, Lookup(r.value, k, name))
    {
      if k == key { assert Lookup(r.value, k, name) == At(after.value, name); }
      else { assert Lookup(r.value, k, name) == Lookup(t, k, name); }
    }
  }

  /** The table of the first `n` nodes, none of which clashed. */
  ghost predicate Filled(nodes: seq<NodeSpec>, n: nat, t: OptionTable)
    requires n <= |nodes|
  {
    && (forall key, name :: IsEntry(nodes, n, key, name, Lookup(t, key, name)))
    && (forall j: nat, key :: j < n ==> !Clashes(nodes, j, key))
  }

  ghost predicate ClashesSomewhere(nodes: seq<NodeSpec>, n: nat)
    requires n < |nodes|
  {
    exists key :: Clashes(nodes, n, key)
  }

  /** Under its kind and then under its plugin, which may be the same word. */
  method CountNode(nodes: seq<NodeSpec>, n: nat, t: OptionTable) returns (r: Option<OptionTable>)
    requires n < |nodes| && Filled(nodes, n, t)
    ensures r.None? <==> ClashesSomewhere(nodes, n)
    ensures r.Some? ==> Filled(nodes, n + 1, r.value)
  {
    var kind, plugin := nodes[n].nodeType, nodes[n].plugin;
    ghost var done: set<string> := {};
    r := Some(t);
    if kind.Some? && kind.value != "" {
      r := CountUnder(nodes, n, done, r.value, nodes[n], kind.value);
      if r.None? { return; }
      done := done + {kind.value};
    }
    if plugin.Some? && plugin.value != "" {
      r := CountUnder(nodes, n, done, r.value, nodes[n], plugin.value);
      if r.None? { return; }
      done := done + {plugin.value};
    }
    forall key, name ensures IsEntry(nodes, n + 1, key, name, Lookup(r.value, key, name)) {
      assert key !in done ==> !Under(nodes[n], key);
      if key !in done { ElsewhereStays(nodes, n, key, name, Lookup(r.value, key, name)); }
    }
  }

  /** `observed_option_values`; it raises where the numbers clash with an option of their name. */
  method ObservedOptionValues(nodes: seq<NodeSpec>) returns (r: Option<OptionTable>)
    ensures r.None? <==> !Readable(nodes)
    ensures r.Some? ==> IsTable(nodes, r.value)
  {
    var t: OptionTable := map[];
    for n := 0 to |nodes|
      invariant Filled(nodes, n, t)
    {
      var more := CountNode(nodes, n, t);
      if more.None? {
        Unreadable(nodes, n);
        return None;
      }
      t := more.value;
    }
    FilledIsRead(nodes, t);
    r := Some(t);
  }

  lemma {:induction false} Unreadable(nodes: seq<NodeSpec>, n: nat)
    requires n < |nodes| && ClashesSomewhere(nodes, n)
    ensures !Readable(nodes)
  {
    var key :| Clashes(nodes, n, key);
    assert !ReadableUnder(nodes, key);
  }

  lemma {:induction false} FilledIsRead(nodes: seq<NodeSpec>, t: OptionTable)
    requires Filled(nodes, |nodes|, t)
    ensures Readable(nodes) && IsTable(nodes, t)
  {
  }

  // ---- Assertions ----

  function AsNumber(v: Value): Option<real> {
    match v
    case Number(x) => Some(x)
    case Text(_, x) => x
    case _ => None
  }

  predicate SameNumber(v: Value, w: Value) { AsNumber(v).Some? && AsNumber(v) == AsNumber(w) }

  predicate HasNumber(v: Value, w: Value) { v.Items? && exists x :: x in v.items && SameNumber(x, w) }

  predicate HoldsIn(t: OptionTable, a: Assertion) {
    if a.name == LITERAL then Lookup(t, a.key, LITERALS).Some? && HasNumber(Lookup(t, a.key, LITERALS).value, a.value)
    else Lookup(t, a.key, a.name) == Some(a.value)
  }

  /** What an assertion says of the nodes. */
  ghost predicate Holds(nodes: seq<NodeSpec>, a: Assertion) {
    if a.name == LITERAL then exists v :: IsEntry(nodes, |nodes|, a.key, LITERALS, Some(v)) && HasNumber(v, a.value)
    else IsEntry(nodes, |nodes|, a.key, a.name, Some(a.value))
  }

  lemma {:induction false} HoldsIff(nodes: seq<NodeSpec>, t: OptionTable, a: Assertion)
    requires IsTable(nodes, t)
    ensures HoldsIn(t, a) <==> Holds(nodes, a)
  {
    var name := if a.name == LITERAL then LITERALS else a.name;
    var entry := Lookup(t, a.key, name);
    assert IsEntry(nodes, |nodes|, a.key, name, entry);
    if Holds(nodes, a) {
      var v :| IsEntry(nodes, |nodes|, a.key, name, Some(v)) && if a.name == LITERAL
                 then HasNumber(v, a.value) else v == a.value;
      EntryUnique(nodes, a.key, name, Some(v), entry);
    }
  }

  /** `topologies_match`: the graph first, then the assertions in order; `None` is an `IndexError`. */
  method MatchWithOptions(expected: Topology, observed: Topology, t: OptionTable, assertions: seq<Assertion>)
    returns (r: Option<MatchResult>)
    ensures r.None? <==> !Indexable(observed) && Sort(expected.nodes, SigLe) == Sort(observed.nodes, SigLe)
    ensures r == Some(Match) <==> Matches(expected, Wrapped(observed)) && forall a :: a in assertions ==> HoldsIn(t, a)
    ensures r.Some? && r.value.Mismatch? && r.value.reason.OptionAssertion? <==>
            Matches(expected, Wrapped(observed)) && exists a :: a in assertions && !HoldsIn(t, a)
    ensures r.Some? && r.value.Mismatch? && r.value.reason.OptionAssertion? ==>
              && r.value.reason.at < |assertions| && !HoldsIn(t, assertions[r.value.reason.at])
              && forall k :: 0 <= k < r.value.reason.at ==> HoldsIn(t, assertions[k])
  {
    r := TopologiesMatch(expected, observed);
    if r != Some(Match) {
      return;
    }
    for k := 0 to |assertions|
      invariant forall i :: 0 <= i < k ==> HoldsIn(t, assertions[i])
    {
      if !HoldsIn(t, assertions[k]) {
        return Some(Mismatch(OptionAssertion(k)));
      }
    }
  }

  /** An option is asserted truly exactly when the last node under the key to set it gives that value. */
  lemma {:induction false} OptionHolds(nodes: seq<NodeSpec>, a: Assertion)
    requires a.name != LITERAL && a.name != LITERALS
    ensures Holds(nodes, a) <==>
            exists i :: && 0 <= i < |nodes| && Sets(nodes[i], a.key, a.name) && nodes[i].options[a.name] == a.value
                        && forall k :: i < k < |nodes| ==> !Sets(nodes[k], a.key, a.name)
  {
    var last := LastSetter(nodes, |nodes|, a.key, a.name);
    if i :| && 0 <= i < |nodes| && Sets(nodes[i], a.key, a.name) && nodes[i].options[a.name] == a.value
            && forall k :: i < k < |nodes| ==> !Sets(nodes[k], a.key, a.name) {
      assert i == last;
    }
  }

  ghost function AllGathered(nodes: seq<NodeSpec>, lo: int, n: nat, key: string): (xs: seq<real>)
    requires n <= |nodes|
    ensures forall x :: x in xs <==> Gathers(nodes, lo, n, key, x)
  {
    if n == 0 then []
    else AllGathered(nodes, lo, n - 1, key) + if lo < n && Under(nodes[n - 1], key) then nodes[n - 1].literals else []
  }

  /** The numbers' entry exists, and has the numbers of the nodes not forgotten and of the option. */
  lemma {:induction false} LiteralsEntry(nodes: seq<NodeSpec>, key: string) returns (v: Value)
    requires ReadableUnder(nodes, key) && HasLiterals(nodes, LastSetter(nodes, |nodes|, key, LITERALS), |nodes|, key)
    ensures IsEntry(nodes, |nodes|, key, LITERALS, Some(v))
    ensures forall w :: HasNumber(v, w) <==>
              var raw := RawEntry(nodes, |nodes|, key, LITERALS);
              || Found(nodes, key, w) || (raw.Some? && HasNumber(raw.value, w))
  {
    var i, raw := LastSetter(nodes, |nodes|, key, LITERALS), RawEntry(nodes, |nodes|, key, LITERALS);
    MergedBefore(nodes, |nodes|, key);
    v := Merged(raw, AllGathered(nodes, i, |nodes|, key));
    forall w ensures HasNumber(v, w) <==> Found(nodes, key, w) || (raw.Some? && HasNumber(raw.value, w)) {
      AscendingCountable(v);
      NumberListed(v, w);
      if raw.Some? { NumberListed(raw.value, w); }
    }
  }

  lemma {:induction false} NumberListed(v: Value, w: Value)
    requires Countable(v)
    ensures HasNumber(v, w) <==> AsNumber(w).Some? && Lists(v, AsNumber(w).value)
  {
  }

  /** A node that was not forgotten has the number in its condition. */
  ghost predicate Found(nodes: seq<NodeSpec>, key: string, w: Value) {
    && AsNumber(w).Some?
    && Gathers(nodes, LastSetter(nodes, |nodes|, key, LITERALS), |nodes|, key, AsNumber(w).value)
  }

  /** A number is asserted truly exactly when a node since the last option of that name has it, or that option does. */
  lemma {:induction false} LiteralHolds(nodes: seq<NodeSpec>, a: Assertion)
    requires a.name == LITERAL && ReadableUnder(nodes, a.key)
    ensures var raw := RawEntry(nodes, |nodes|, a.key, LITERALS);
            Holds(nodes, a) <==> Found(nodes, a.key, a.value) || (raw.Some? && HasNumber(raw.value, a.value))
  {
    if HasLiterals(nodes, LastSetter(nodes, |nodes|, a.key, LITERALS), |nodes|, a.key) {
      var v := LiteralsEntry(nodes, a.key);
      if w :| IsEntry(nodes, |nodes|, a.key, LITERALS, Some(w)) && HasNumber(w, a.value) {
        EntryUnique(nodes, a.key, LITERALS, Some(v), Some(w));
      }
    } else {
      assert !Found(nodes, a.key, a.value);
    }
  }

  // ---- Names and order of the nodes ----

  /** The same kinds, plugins, options and numbers, place by place. */
  ghost predicate SameOptions(nodes: seq<NodeSpec>, others: seq<NodeSpec>) {
    && |nodes| == |others|
    && forall i :: 0 <= i < |nodes| ==>
         && nodes[i].nodeType == others[i].nodeType && nodes[i].plugin == others[i].plugin
         && nodes[i].options == others[i].options && nodes[i].literals == others[i].literals
  }

  lemma {:induction false} SameSetter(nodes: seq<NodeSpec>, others: seq<NodeSpec>, n: nat, key: string, name: string)
    requires SameOptions(nodes, others) && n <= |nodes|
    ensures LastSetter(nodes, n, key, name) == LastSetter(others, n, key, name)
    ensures RawEntry(nodes, n, key, name) == RawEntry(others, n, key, name)
  {
    if n > 0 { SameSetter(nodes, others, n - 1, key, name); }
  }

  /** Options that agree place by place are readable alike and make the same assertions true. */
  lemma {:induction false} SameOptionsHold(nodes: seq<NodeSpec>, others: seq<NodeSpec>)
    requires SameOptions(nodes, others)
    ensures Readable(nodes) <==> Readable(others)
    ensures forall a :: Holds(nodes, a) <==> Holds(others, a)
  {
    forall j: nat, key | j < |nodes| ensures Clashes(nodes, j, key) <==> Clashes(others, j, key) {
      SameSetter(nodes, others, j + 1, key, LITERALS);
    }
    assert forall key :: ReadableUnder(nodes, key) <==> ReadableUnder(others, key);
    forall key, name, v ensures IsEntry(nodes, |nodes|, key, name, v) <==> IsEntry(others, |nodes|, key, name, v) {
      SameEntry(nodes, others, key, name, v);
    }
  }

  lemma {:induction false} SameEntry(
    nodes: seq<NodeSpec>, others: seq<NodeSpec>, key: string, name: string, v: Option<Value>)
    requires SameOptions(nodes, others)
    ensures IsEntry(nodes, |nodes|, key, name, v) <==> IsEntry(others, |nodes|, key, name, v)
  {
    SameSetter(nodes, others, |nodes|, key, name);
    var i := LastSetter(nodes, |nodes|, key, name);
    assert HasLiterals(nodes, i, |nodes|, key) <==> HasLiterals(others, i, |nodes|, key);
    forall x ensures Gathers(nodes, i, |nodes|, key, x) <==> Gathers(others, i, |nodes|, key, x) { }
  }

  /** No node sets the numbers by hand, and nodes under one key agree on every option that is asserted. */
  ghost predicate OrderFree(nodes: seq<NodeSpec>, assertions: seq<Assertion>) {
    && (forall i :: 0 <= i < |nodes| ==> LITERALS !in nodes[i].options)
    && forall a :: a in assertions ==> Agreed(nodes, a.key, a.name)
  }

  ghost predicate Agreed(nodes: seq<NodeSpec>, key: string, name: string) {
    forall i, j :: 0 <= i < |nodes| && 0 <= j < |nodes| && Sets(nodes[i], key, name) && Sets(nodes[j], key, name) ==>
      nodes[i].options[name] == nodes[j].options[name]
  }

  /** A node that gives an option its asserted value, or has the asserted number. */
  ghost predicate HoldsAt(n: NodeSpec, a: Assertion) {
    if a.name == LITERAL then Under(n, a.key) && AsNumber(a.value).Some? && AsNumber(a.value).value in n.literals
    else Sets(n, a.key, a.name) && n.options[a.name] == a.value
  }

  ghost predicate HoldsSomewhere(nodes: seq<NodeSpec>, a: Assertion) {
    exists i :: 0 <= i < |nodes| && HoldsAt(nodes[i], a)
  }

  lemma {:induction false} AgreedHolds(nodes: seq<NodeSpec>, a: Assertion)
    requires OrderFree(nodes, [a]) && a.name != LITERALS
    ensures Holds(nodes, a) <==> HoldsSomewhere(nodes, a)
  {
    assert a in [a];
    if a.name == LITERAL {
      LiteralHolds(nodes, a);
      assert Found(nodes, a.key, a.value) <==> HoldsSomewhere(nodes, a);
    } else {
      var last := LastSetter(nodes, |nodes|, a.key, a.name);
      if i :| 0 <= i < |nodes| && HoldsAt(nodes[i], a) { assert last >= 0; }
    }
  }

  ghost predicate Permuted(nodes: seq<NodeSpec>, others: seq<NodeSpec>, p: seq<nat>) {
    |others| == |nodes| && Bijection(p, |nodes|) && forall i :: 0 <= i < |nodes| ==> others[i] == nodes[p[i]]
  }

  lemma {:induction false} PermutedLiterals(nodes: seq<NodeSpec>, others: seq<NodeSpec>, p: seq<nat>, key: string)
    requires Permuted(nodes, others, p)
    ensures HasLiterals(nodes, -1, |nodes|, key) <==> HasLiterals(others, -1, |nodes|, key)
    ensures forall x :: Gathers(nodes, -1, |nodes|, key, x) <==> Gathers(others, -1, |nodes|, key, x)
  {
    if j :| 0 <= j < |nodes| && Under(nodes[j], key) && nodes[j].literals != [] {
      Onto(p, |nodes|, j);
      var k :| 0 <= k < |p| && p[k] == j;
      assert Under(others[k], key) && others[k].literals != [];
    }
    forall x | Gathers(nodes, -1, |nodes|, key, x) ensures Gathers(others, -1, |nodes|, key, x) {
      var j :| 0 <= j < |nodes| && Under(nodes[j], key) && x in nodes[j].literals;
      Onto(p, |nodes|, j);
      var k :| 0 <= k < |p| && p[k] == j;
      assert Under(others[k], key) && x in others[k].literals;
    }
  }

  /** Where nothing is said twice in different ways, the order of the nodes does not matter to an assertion. */
  lemma {:induction false} OrderOfOptions(nodes: seq<NodeSpec>, others: seq<NodeSpec>, p: seq<nat>, a: Assertion)
    requires Permuted(nodes, others, p) && OrderFree(nodes, [a])
    ensures OrderFree(others, [a])
    ensures Holds(nodes, a) <==> Holds(others, a)
  {
    assert a in [a];
    if a.name == LITERALS {
      PermutedLiterals(nodes, others, p, a.key);
    } else {
      AgreedHolds(nodes, a);
      AgreedHolds(others, a);
      if i :| 0 <= i < |nodes| && HoldsAt(nodes[i], a) {
        Onto(p, |nodes|, i);
        var k :| 0 <= k < |p| && p[k] == i;
        assert HoldsAt(others[k], a);
      }
    }
  }

  // ---- What the table promises ----

  /** What the table promises: an assertion sees the numbers of all nodes under the key, and no others. */
  ghost predicate SeesAll(nodes: seq<NodeSpec>, key: string) {
    forall x :: Holds(nodes, Assertion(key, LITERAL, Number(x))) <==> Gathers(nodes, 0, |nodes|, key, x)
  }

  /** The promise is kept exactly when an option of that name hides no number and adds none. */
  lemma {:induction false} SeesAllIff(nodes: seq<NodeSpec>, key: string)
    requires ReadableUnder(nodes, key)
    ensures var i, raw := LastSetter(nodes, |nodes|, key, LITERALS), RawEntry(nodes, |nodes|, key, LITERALS);
            SeesAll(nodes, key) <==>
            i < 0 || forall x :: Gathers(nodes, i, |nodes|, key, x) || HasNumber(raw.value, Number(x)) <==>
                                 Gathers(nodes, 0, |nodes|, key, x)
  {
    forall x { LiteralHolds(nodes, Assertion(key, LITERAL, Number(x))); }
  }

  /** Two gates: the first compares with a number, the second has an option of the numbers' name. */
  function HiddenNumber(): seq<NodeSpec> {
    var gate := NodeSpec(Some("gate"), None, None, None, None, None, None, [], [], None, None, map[], []);
    [gate.(literals := [1000.0]), gate.(options := map[LITERALS := Items([])])]
  }

  lemma {:induction false} OptionHidesNumber()
    ensures Readable(HiddenNumber()) && Gathers(HiddenNumber(), 0, 2, "gate", 1000.0)
    ensures !Holds(HiddenNumber(), Assertion("gate", LITERAL, Number(1000.0)))
  {
    var nodes := HiddenNumber();
    assert Under(nodes[0], "gate") && 1000.0 in nodes[0].literals;
    forall key ensures ReadableUnder(nodes, key) {
      assert !Sets(nodes[0], key, LITERALS);
      assert !Clashes(nodes, 0, key) && !Clashes(nodes, 1, key);
    }
    assert Sets(nodes[1], "gate", LITERALS);
    LiteralHolds(nodes, Assertion("gate", LITERAL, Number(1000.0)));
  }
}
