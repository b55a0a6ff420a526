/**
 Two scanners name the functions of a syntax tree by their enclosing class. One takes the last class
 of a breadth-first walk whose own walk meets the function; the other climbs a parent map built by
 one walk. Both names have to be the same, or whitelist rows of one are unknown to the other.
 */
module ClassLookup {
  import opened Common

  /** A dict-typed parameter or result of a function, and where it is written. */
  datatype Slot = Slot(name: string, line: nat)

  datatype Kind = ClassDef(name: string) | FunctionDef(name: string, slots: seq<Slot>) | Other

  datatype Node = Node(id: nat, kind: Kind, children: seq<Node>)

  // ---- Walking a tree ----

  function Size(t: Node): nat { 1 + SizeAll(t.children) }

  function SizeAll(ts: seq<Node>): nat {
    if ts == [] then 0 else Size(ts[0]) + SizeAll(ts[1..])
  }

  lemma {:induction false} SizeJoin(a: seq<Node>, b: seq<Node>)
    ensures SizeAll(a + b) == SizeAll(a) + SizeAll(b)
  {
    if a == [] {
      assert a + b == b;
    } else {
      assert (a + b)[1..] == a[1..] + b;
      SizeJoin(a[1..], b);
    }
  }

  /** The queue after its first node was visited. */
  function Next(queue: seq<Node>): (r: seq<Node>)
    requires queue != []
    ensures SizeAll(r) < SizeAll(queue)
  {
    SizeJoin(queue[1..], queue[0].children);
    queue[1..] + queue[0].children
  }

  /** The nodes in breadth-first order. */
  function Walk(queue: seq<Node>): seq<Node>
    decreases SizeAll(queue)
  {
    if queue == [] then [] else [queue[0]] + Walk(Next(queue))
  }

  // ---- Occurrences of an identity ----

  function Occ(t: Node, id: nat): nat { (if t.id == id then 1 else 0) + OccAll(t.children, id) }

  function OccAll(ts: seq<Node>, id: nat): nat {
    if ts == [] then 0 else Occ(ts[0], id) + OccAll(ts[1..], id)
  }

  lemma {:induction false} OccJoin(a: seq<Node>, b: seq<Node>, id: nat)
    ensures OccAll(a + b, id) == OccAll(a, id) + OccAll(b, id)
  {
    if a == [] {
      assert a + b == b;
    } else {
      assert (a + b)[1..] == a[1..] + b;
      OccJoin(a[1..], b, id);
    }
  }

  lemma {:induction false} OccNext(queue: seq<Node>, id: nat)
    requires queue != []
    ensures OccAll(queue, id) == OccAll(Next(queue), id) + (if queue[0].id == id then 1 else 0)
  {
    OccJoin(queue[1..], queue[0].children, id);
  }

  ghost predicate Meets(nodes: seq<Node>, id: nat) {
    exists i :: 0 <= i < |nodes| && nodes[i].id == id
  }

  lemma {:induction false} MeetsSplit(nodes: seq<Node>, id: nat)
    requires nodes != []
    ensures Meets(nodes, id) <==> nodes[0].id == id || Meets(nodes[1..], id)
  {
    if Meets(nodes[1..], id) {
      var i :| 0 <= i < |nodes[1..]| && nodes[1..][i].id == id;
      assert nodes[i + 1].id == id;
    }
    if Meets(nodes, id) {
      var i :| 0 <= i < |nodes| && nodes[i].id == id;
      assert i == 0 || nodes[1..][i - 1].id == id;
    }
  }

  /** A walk meets an identity exactly when it occurs in the queue's trees. */
  lemma {:induction false} WalkMeets(queue: seq<Node>, id: nat)
    ensures Meets(Walk(queue), id) <==> OccAll(queue, id) > 0
    decreases SizeAll(queue)
  {
    if queue != [] {
      OccNext(queue, id);
      WalkMeets(Next(queue), id);
      MeetsSplit(Walk(queue), id);
    }
  }

  // ---- The nearest class, top down ----

  function Named(t: Node, acc: Option<string>): Option<string> {
    if t.kind.ClassDef? then Some(t.kind.name) else acc
  }

  /** The first tree of a list that holds an identity. */
  function Holder(ts: seq<Node>, id: nat): (r: Node)
    requires OccAll(ts, id) > 0
    ensures r in ts && 0 < Occ(r, id) <= OccAll(ts, id) && Size(r) <= SizeAll(ts)
  {
    if Occ(ts[0], id) > 0 then ts[0] else Holder(ts[1..], id)
  }

  /** The innermost class on the way from the root of `t` to the identity, `acc` outside `t`. */
  function Nearest(t: Node, id: nat, acc: Option<string>): Option<string>
    requires Occ(t, id) > 0
    decreases Size(t)
  {
    if t.id == id then Named(t, acc) else Nearest(Holder(t.children, id), id, Named(t, acc))
  }

  lemma {:induction false} HolderJoin(a: seq<Node>, b: seq<Node>, id: nat)
    requires OccAll(a, id) + OccAll(b, id) > 0
    ensures OccAll(a + b, id) > 0
    ensures Holder(a + b, id) == if OccAll(a, id) > 0 then Holder(a, id) else Holder(b, id)
  {
    OccJoin(a, b, id);
    if a == [] {
      assert a + b == b;
    } else if Occ(a[0], id) == 0 {
      assert (a + b)[1..] == a[1..] + b;
      HolderJoin(a[1..], b, id);
    }
  }

  // ---- The breadth-first search ----

  /** Each class whose tree holds the identity replaces the name found so far. */
  function LastHolder(queue: seq<Node>, id: nat, acc: Option<string>): Option<string>
    decreases SizeAll(queue)
  {
    if queue == [] then acc
    else LastHolder(Next(queue), id, if Occ(queue[0], id) > 0 then Named(queue[0], acc) else acc)
  }

  lemma {:induction false} LastHolderAbsent(queue: seq<Node>, id: nat, acc: Option<string>)
    requires OccAll(queue, id) == 0
    ensures LastHolder(queue, id, acc) == acc
    decreases SizeAll(queue)
  {
    if queue != [] {
      OccNext(queue, id);
      LastHolderAbsent(Next(queue), id, acc);
    }
  }

  /** The last class of the walk that holds the identity is the nearest one. */
  lemma {:induction false} LastIsNearest(queue: seq<Node>, id: nat, acc: Option<string>)
    requires OccAll(queue, id) == 1
    ensures LastHolder(queue, id, acc) == Nearest(Holder(queue, id), id, acc)
    decreases SizeAll(queue)
  {
    var t := queue[0];
    OccNext(queue, id);
    if t.id == id {
      LastHolderAbsent(Next(queue), id, Named(t, acc));
    } else {
      HolderJoin(queue[1..], t.children, id);
      LastIsNearest(Next(queue), id, if Occ(t, id) > 0 then Named(t, acc) else acc);
    }
  }

  // ---- The parent map ----

  /** The parent of an identity that occurs below the root of `t`. */
  ghost function Parent(t: Node, id: nat): Node
    requires OccAll(t.children, id) > 0
    decreases Size(t)
  {
    if Meets(t.children, id) then t else Parent(Holder(t.children, id), id)
  }

  lemma {:induction false} OccMember(ts: seq<Node>, t: Node, id: nat)
    requires t in ts
    ensures Occ(t, id) <= OccAll(ts, id)
  {
    if ts[0] != t { OccMember(ts[1..], t, id); }
  }

  /** The only tree that can hold an identity occurring once is its holder. */
  lemma {:induction false} HolderUnique(ts: seq<Node>, t: Node, id: nat)
    requires OccAll(ts, id) == 1 && t in ts && Occ(t, id) > 0
    ensures Holder(ts, id) == t
    ensures Meets(ts, id) <==> t.id == id
  {
    MeetsSplit(ts, id);
    if Occ(ts[0], id) > 0 {
      if t in ts[1..] { OccMember(ts[1..], t, id); }
      NoMeet(ts[1..], id);
    } else {
      HolderUnique(ts[1..], t, id);
    }
  }

  lemma {:induction false} NoMeet(ts: seq<Node>, id: nat)
    requires OccAll(ts, id) == 0
    ensures !Meets(ts, id)
  {
    if Meets(ts, id) {
      var i :| 0 <= i < |ts| && ts[i].id == id;
      OccMember(ts, ts[i], id);
    }
  }

  function Adopt(t: Node, children: seq<Node>, parents: map<nat, Node>): map<nat, Node> {
    if children == [] then parents
    else
      var entry: map<nat, Node> := map[children[0].id := t];
      Adopt(t, children[1..], parents + entry)
  }

  function ParentMap(queue: seq<Node>, parents: map<nat, Node>): map<nat, Node>
    decreases SizeAll(queue)
  {
    if queue == [] then parents
    else ParentMap(Next(queue), Adopt(queue[0], queue[0].children, parents))
  }

  function Get(parents: map<nat, Node>, id: nat): Option<Node> {
    if id in parents then Some(parents[id]) else None
  }

  lemma {:induction false} AdoptLookup(t: Node, children: seq<Node>, parents: map<nat, Node>, id: nat)
    ensures Get(Adopt(t, children, parents), id) == if Meets(children, id) then Some(t) else Get(parents, id)
  {
    if children != [] {
      var entry: map<nat, Node> := map[children[0].id := t];
      AdoptLookup(t, children[1..], parents + entry, id);
      MeetsSplit(children, id);
    }
  }

  /** Below the roots, the map gives the parent; elsewhere it is what it was before. */
  lemma {:induction false} ParentMapLookup(queue: seq<Node>, parents: map<nat, Node>, id: nat)
    requires OccAll(queue, id) <= 1
    ensures Get(ParentMap(queue, parents), id) ==
            if OccAll(queue, id) == 1 && !Meets(queue, id) then Some(Parent(Holder(queue, id), id))
            else Get(parents, id)
    decreases SizeAll(queue)
  {
    if queue != [] {
      var t := queue[0];
      OccNext(queue, id);
      MeetsSplit(queue, id);
      AdoptLookup(t, t.children, parents, id);
      ParentMapLookup(Next(queue), Adopt(t, t.children, parents), id);
      MeetsJoin(queue[1..], t.children, id);
      if OccAll(queue[1..], id) == 0 { NoMeet(queue[1..], id); }
      if OccAll(t.children, id) == 0 { NoMeet(t.children, id); }
      if OccAll(queue[1..], id) + OccAll(t.children, id) > 0 { HolderJoin(queue[1..], t.children, id); }
    }
  }

  lemma {:induction false} MeetsJoin(a: seq<Node>, b: seq<Node>, id: nat)
    ensures Meets(a + b, id) <==> Meets(a, id) || Meets(b, id)
  {
    if a == [] {
      assert a + b == b;
    } else {
      MeetsSplit(a, id);
      MeetsSplit(a + b, id);
      assert (a + b)[1..] == a[1..] + b;
      MeetsJoin(a[1..], b, id);
    }
  }

  // ---- Climbing the map ----

  /** The nodes from the root down to the identity. */
  ghost function Path(t: Node, id: nat): (r: seq<Node>)
    requires Occ(t, id) > 0
    ensures r != [] && r[0] == t && r[|r| - 1].id == id
    decreases Size(t)
  {
    if t.id == id then [t] else [t] + Path(Holder(t.children, id), id)
  }

  /** The last class of a path. */
  ghost function Innermost(path: seq<Node>): Option<string> {
    if path == [] then None else Named(path[|path| - 1], Innermost(path[..|path| - 1]))
  }

  ghost predicate Within(t: Node, n: Node) {
    n == t || exists i :: 0 <= i < |t.children| && Within(t.children[i], n)
  }

  /** Identities are unique, except those of nameless leaves, which a tree may share. */
  ghost predicate Identified(root: Node) {
    forall n :: Within(root, n) && (n.children != [] || !n.kind.Other?) ==> Occ(root, n.id) == 1
  }

  lemma {:induction false} WithinOccurs(t: Node, n: Node)
    requires Within(t, n)
    ensures Occ(t, n.id) > 0
  {
    if n != t {
      var i :| 0 <= i < |t.children| && Within(t.children[i], n);
      WithinOccurs(t.children[i], n);
      OccMember(t.children, t.children[i], n.id);
    }
  }

  lemma {:induction false} WithinChild(t: Node, n: Node, j: nat)
    requires Within(t, n) && j < |n.children|
    ensures Within(t, n.children[j])
  {
    if n == t {
      assert Within(t.children[j], n.children[j]);
    } else {
      var i :| 0 <= i < |t.children| && Within(t.children[i], n);
      WithinChild(t.children[i], n, j);
    }
  }

  lemma {:induction false} PathWithin(t: Node, id: nat, k: nat)
    requires Occ(t, id) > 0 && k < |Path(t, id)|
    ensures Within(t, Path(t, id)[k])
    ensures k < |Path(t, id)| - 1 ==> Path(t, id)[k].children != []
    decreases k
  {
    if k > 0 {
      var c := Holder(t.children, id);
      PathWithin(c, id, k - 1);
      var i :| 0 <= i < |t.children| && t.children[i] == c;
    }
  }

  /** The path to the identity of a node that occurs once ends in that node. */
  lemma {:induction false} PathEnds(t: Node, n: Node)
    requires Within(t, n) && Occ(t, n.id) == 1
    ensures var path := Path(t, n.id); path[|path| - 1] == n
  {
    if n != t {
      var i :| 0 <= i < |t.children| && Within(t.children[i], n);
      var c := t.children[i];
      WithinOccurs(c, n);
      OccMember(t.children, c, n.id);
      HolderUnique(t.children, c, n.id);
      PathEnds(c, n);
    }
  }

  lemma {:induction false} InnermostCons(t: Node, path: seq<Node>)
    ensures Innermost([t] + path) == if Innermost(path).Some? then Innermost(path) else Named(t, None)
  {
    var whole := [t] + path;
    if path != [] {
      assert whole[..|whole| - 1] == [t] + path[..|path| - 1];
      InnermostCons(t, path[..|path| - 1]);
    }
  }

  lemma {:induction false} NearestIsInnermost(t: Node, id: nat, acc: Option<string>)
    requires Occ(t, id) > 0
    ensures Nearest(t, id, acc) == if Innermost(Path(t, id)).Some? then Innermost(Path(t, id)) else acc
    decreases Size(t)
  {
    if t.id == id {
      InnermostCons(t, []);
      assert [t] + [] == [t];
    } else {
      var c := Holder(t.children, id);
      NearestIsInnermost(c, id, Named(t, acc));
      InnermostCons(t, Path(c, id));
    }
  }

  lemma {:induction false} PathOccurs(t: Node, id: nat, k: nat)
    requires Occ(t, id) > 0 && k < |Path(t, id)|
    ensures Occ(t, Path(t, id)[k].id) > 0
    decreases k
  {
    if k > 0 {
      var c := Holder(t.children, id);
      PathOccurs(c, id, k - 1);
      OccMember(t.children, c, Path(c, id)[k - 1].id);
    }
  }

  /** Each node of a path is the parent of the next one. */
  lemma {:induction false} PathParent(t: Node, id: nat, k: nat)
    requires Occ(t, id) > 0 && 0 < k < |Path(t, id)| && Occ(t, Path(t, id)[k].id) == 1
    ensures var below := Path(t, id)[k].id;
            t.id != below && OccAll(t.children, below) > 0 && Parent(t, below) == Path(t, id)[k - 1]
    decreases k
  {
    var c := Holder(t.children, id);
    var below := Path(t, id)[k].id;
    PathOccurs(c, id, k - 1);
    OccMember(t.children, c, below);
    HolderUnique(t.children, c, below);
    if k > 1 { PathParent(c, id, k - 1); }
  }

  /** What climbing needs: the map gives the parent of every node of the path, and none to the root. */
  lemma {:induction false} MapFollowsPath(root: Node, n: Node, k: nat)
    requires Identified(root) && Within(root, n) && n.kind.FunctionDef? && Occ(root, n.id) == 1
    requires k < |Path(root, n.id)|
    ensures var path := Path(root, n.id);
            Get(ParentMap([root], map[]), path[k].id) == if k == 0 then None else Some(path[k - 1])
  {
    var path := Path(root, n.id);
    var id := path[k].id;
    PathEnds(root, n);
    PathWithin(root, n.id, k);
    assert Occ(root, id) == 1;
    assert OccAll([root], id) == 1 && Holder([root], id) == root;
    ParentMapLookup([root], map[], id);
    MeetsSplit([root], id);
    if k > 0 { PathParent(root, n.id, k); }
  }

  method BuildParentMap(root: Node) returns (parents: map<nat, Node>)
    ensures parents == ParentMap([root], map[])
  {
    parents := map[];
    var todo := [root];
    while todo != []
      invariant ParentMap(todo, parents) == ParentMap([root], map[])
      decreases SizeAll(todo)
    {
      var parent := todo[0];
      ghost var adopted := Adopt(parent, parent.children, parents);
      for i := 0 to |parent.children|
        invariant Adopt(parent, parent.children[i..], parents) == adopted
      {
        assert parent.children[i..][1..] == parent.children[i + 1..];
        var entry: map<nat, Node> := map[parent.children[i].id := parent];
        parents := parents + entry;
      }
      todo := Next(todo);
    }
  }

  /** The innermost class above place `k` is the node just above, if it is a class, or one further up. */
  lemma {:induction false} InnermostAbove(path: seq<Node>, k: nat)
    requires 0 < k <= |path|
    ensures Innermost(path[..k]) ==
            if path[k - 1].kind.ClassDef? then Some(path[k - 1].kind.name) else Innermost(path[..k - 1])
  {
    var above := path[..k];
    assert above[k - 1] == path[k - 1] && above[..k - 1] == path[..k - 1];
  }

  /** The fast lookup finds the nearest class. */
  method ClimbToClass(ghost root: Node, parents: map<nat, Node>, node: Node) returns (className: Option<string>)
    requires Identified(root) && Within(root, node) && node.kind.FunctionDef?
    requires parents == ParentMap([root], map[])
    ensures Occ(root, node.id) == 1
    ensures className == Nearest(root, node.id, None)
  {
    ghost var path := Path(root, node.id);
    ghost var k := |path| - 1;
    PathEnds(root, node);
    MapFollowsPath(root, node, k);
    NearestIsInnermost(root, node.id, None);
    className := None;
    var ancestor := Get(parents, node.id);
    while ancestor.Some?
      invariant 0 <= k < |path| && ancestor == if k == 0 then None else Some(path[k - 1])
      invariant Innermost(path) == Innermost(path[..k])
      invariant className == None
      decreases k
    {
      InnermostAbove(path, k);
      if ancestor.value.kind.ClassDef? {
        className := Some(ancestor.value.kind.name);
        break;
      }
      MapFollowsPath(root, node, k - 1);
      ancestor := Get(parents, ancestor.value.id);
      k := k - 1;
    }
  }

  /** The slow search: walk the tree, and for each class walk its own tree for the node. */
  method SearchClass(root: Node, node: Node) returns (className: Option<string>)
    ensures className == LastHolder([root], node.id, None)
  {
    className := None;
    var todo := [root];
    while todo != []
      invariant LastHolder(todo, node.id, className) == LastHolder([root], node.id, None)
      decreases SizeAll(todo)
    {
      var parent := todo[0];
      if parent.kind.ClassDef? {
        var found := WalkFinds(parent, node.id);
        if found {
          className := Some(parent.kind.name);
        }
      }
      todo := Next(todo);
    }
  }

  method WalkFinds(root: Node, id: nat) returns (found: bool)
    ensures found <==> Occ(root, id) > 0
  {
    found := false;
    var todo := [root];
    while todo != []
      invariant OccAll(todo, id) == Occ(root, id)
      decreases SizeAll(todo)
    {
      OccNext(todo, id);
      if todo[0].id == id {
        return true;
      }
      todo := Next(todo);
    }
  }
}
