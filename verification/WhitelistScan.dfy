/**
 The two scanners of dict-typed signatures and the check for stale whitelist rows. One scanner marks
 the rows it meets, the other lists every site; a row is stale when neither knows it, so both have
 to give every site the same name.
 */
module WhitelistScan {
  import opened Common
  import opened ClassLookup

  // ---- The two scanners ----

  /** A dict-typed parameter or result, named by the class and function it belongs to. */
  datatype Site = Site(context: string, slot: string, line: nat)

  function Context(className: Option<string>, name: string): string {
    if className.Some? && className.value != "" then className.value + "." + name else name
  }

  function Qualified(path: string, site: Site): string { path + ":" + site.context + ":" + site.slot }

  function SlotSites(context: string, slots: seq<Slot>): (r: seq<Site>)
    ensures |r| == |slots| && forall i :: 0 <= i < |r| ==> r[i] == Site(context, slots[i].name, slots[i].line)
  {
    if slots == [] then [] else [Site(context, slots[0].name, slots[0].line)] + SlotSites(context, slots[1..])
  }

  /** The sites of one node, named by its nearest class. */
  ghost function NodeSites(root: Node, n: Node): seq<Site> {
    if n.kind.FunctionDef? && Occ(root, n.id) > 0
    then SlotSites(Context(Nearest(root, n.id, None), n.kind.name), n.kind.slots)
    else []
  }

  /** The sites of the trees of a queue in breadth-first order. */
  ghost function Sites(root: Node, queue: seq<Node>): seq<Site>
    decreases SizeAll(queue)
  {
    if queue == [] then [] else NodeSites(root, queue[0]) + Sites(root, Next(queue))
  }

  function Names(path: string, sites: seq<Site>): (r: seq<string>)
    ensures |r| == |sites| && forall i :: 0 <= i < |r| ==> r[i] == Qualified(path, sites[i])
  {
    if sites == [] then [] else [Qualified(path, sites[0])] + Names(path, sites[1..])
  }

  function Unlisted(path: string, sites: seq<Site>, whitelist: set<string>): seq<Site> {
    if sites == [] then []
    else (if Qualified(path, sites[0]) in whitelist then [] else [sites[0]]) + Unlisted(path, sites[1..], whitelist)
  }

  /** The whitelist rows that name one of the sites. */
  ghost function Listed(path: string, sites: seq<Site>, whitelist: set<string>): set<string> {
    set row | row in whitelist && row in Names(path, sites)
  }

  ghost predicate AllWithin(root: Node, queue: seq<Node>) {
    forall i :: 0 <= i < |queue| ==> Within(root, queue[i])
  }

  lemma {:induction false} NextWithin(root: Node, queue: seq<Node>)
    requires queue != [] && AllWithin(root, queue)
    ensures AllWithin(root, Next(queue))
  {
    forall j | 0 <= j < |queue[0].children| ensures Within(root, queue[0].children[j]) {
      WithinChild(root, queue[0], j);
    }
  }

  /** Midway through a walk, the sites done and those of the queue make up all. */
  ghost predicate Ahead(root: Node, done: seq<Site>, todo: seq<Node>) {
    Sites(root, [root]) == done + Sites(root, todo) && AllWithin(root, todo)
  }

  lemma {:induction false} Advance(root: Node, done: seq<Site>, todo: seq<Node>)
    requires todo != [] && Ahead(root, done, todo)
    ensures Ahead(root, done + NodeSites(root, todo[0]), Next(todo))
  {
    NextWithin(root, todo);
    var more, rest := NodeSites(root, todo[0]), Sites(root, Next(todo));
    assert done + (more + rest) == done + more + rest;
  }

  lemma {:induction false} NamesJoin(path: string, a: seq<Site>, b: seq<Site>)
    ensures Names(path, a + b) == Names(path, a) + Names(path, b)
  {
  }

  lemma {:induction false} UnlistedJoin(path: string, a: seq<Site>, b: seq<Site>, whitelist: set<string>)
    ensures Unlisted(path, a + b, whitelist) == Unlisted(path, a, whitelist) + Unlisted(path, b, whitelist)
  {
    if a == [] {
      assert a + b == b;
    } else {
      assert (a + b)[1..] == a[1..] + b;
      UnlistedJoin(path, a[1..], b, whitelist);
    }
  }

  lemma {:induction false} ListedJoin(path: string, a: seq<Site>, b: seq<Site>, whitelist: set<string>)
    ensures Listed(path, a + b, whitelist) == Listed(path, a, whitelist) + Listed(path, b, whitelist)
  {
    NamesJoin(path, a, b);
  }

  /** Lists the dict-typed sites of one function, looking its class up by the slow search. */
  method NodePatterns(path: string, root: Node, node: Node) returns (patterns: seq<string>)
    requires Identified(root) && Within(root, node)
    ensures patterns == Names(path, NodeSites(root, node))
  {
    patterns := [];
    if node.kind.FunctionDef? {
      WithinOccurs(root, node);
      LastIsNearest([root], node.id, None);
      var className := SearchClass(root, node);
      patterns := Names(path, SlotSites(Context(className, node.kind.name), node.kind.slots));
    }
  }

  /** Lists every dict-typed site of a file. */
  method FindDictPatterns(path: string, root: Node) returns (patterns: seq<string>)
    requires Identified(root)
    ensures patterns == Names(path, Sites(root, [root]))
  {
    patterns := [];
    ghost var done: seq<Site> := [];
    var todo := [root];
    while todo != []
      invariant Ahead(root, done, todo) && patterns == Names(path, done)
      decreases SizeAll(todo)
    {
      var more := NodePatterns(path, root, todo[0]);
      Advance(root, done, todo);
      NamesJoin(path, done, NodeSites(root, todo[0]));
      patterns := patterns + more;
      done := done + NodeSites(root, todo[0]);
      todo := Next(todo);
    }
    assert done == Sites(root, [root]);
  }

  /** Reports the sites no whitelist row names and marks the rows that name one. */
  method CheckSlots(path: string, sites: seq<Site>, whitelist: set<string>, matched: set<string>)
    returns (violations: seq<Site>, marked: set<string>)
    ensures violations == Unlisted(path, sites, whitelist)
    ensures marked == matched + Listed(path, sites, whitelist)
  {
    violations, marked := [], matched;
    for i := 0 to |sites|
      invariant violations == Unlisted(path, sites[..i], whitelist)
      invariant marked == matched + Listed(path, sites[..i], whitelist)
    {
      NextSite(path, sites, i, whitelist);
      var qualified := Qualified(path, sites[i]);
      if qualified in whitelist {
        marked := marked + {qualified};
      } else {
        violations := violations + [sites[i]];
      }
    }
    assert sites[..|sites|] == sites;
  }

  lemma {:induction false} NextSite(path: string, sites: seq<Site>, i: nat, whitelist: set<string>)
    requires i < |sites|
    ensures var row, done, next := Qualified(path, sites[i]), sites[..i], sites[..i + 1];
            && Unlisted(path, next, whitelist) ==
               Unlisted(path, done, whitelist) + (if row in whitelist then [] else [sites[i]])
            && Listed(path, next, whitelist) == Listed(path, done, whitelist) + (if row in whitelist then {row} else {})
  {
    assert sites[..i + 1] == sites[..i] + [sites[i]];
    UnlistedJoin(path, sites[..i], [sites[i]], whitelist);
    ListedJoin(path, sites[..i], [sites[i]], whitelist);
    OneSite(path, sites[i], whitelist);
  }

  lemma {:induction false} OneSite(path: string, site: Site, whitelist: set<string>)
    ensures var row := Qualified(path, site);
            && Unlisted(path, [site], whitelist) == (if row in whitelist then [] else [site])
            && Listed(path, [site], whitelist) == (if row in whitelist then {row} else {})
  {
    assert [site][1..] == [];
    assert Names(path, [site]) == [Qualified(path, site)];
  }

  method NodeViolations(path: string, root: Node, parents: map<nat, Node>, node: Node,
                        whitelist: set<string>, matched: set<string>)
    returns (violations: seq<Site>, marked: set<string>)
    requires Identified(root) && Within(root, node) && parents == ParentMap([root], map[])
    ensures violations == Unlisted(path, NodeSites(root, node), whitelist)
    ensures marked == matched + Listed(path, NodeSites(root, node), whitelist)
  {
    violations, marked := [], matched;
    if node.kind.FunctionDef? {
      var className := ClimbToClass(root, parents, node);
      var sites := SlotSites(Context(className, node.kind.name), node.kind.slots);
      violations, marked := CheckSlots(path, sites, whitelist, matched);
    }
  }

  /** The scanner with the parent map: its violations and matched rows follow from the same names. */
  method FindDictViolations(path: string, root: Node, whitelist: set<string>, matched: set<string>)
    returns (violations: seq<Site>, marked: set<string>)
    requires Identified(root)
    ensures violations == Unlisted(path, Sites(root, [root]), whitelist)
    ensures marked == matched + Listed(path, Sites(root, [root]), whitelist)
  {
    var parents := BuildParentMap(root);
    violations, marked := [], matched;
    ghost var done: seq<Site> := [];
    var todo := [root];
    while todo != []
      invariant Ahead(root, done, todo)
      invariant violations == Unlisted(path, done, whitelist)
      invariant marked == matched + Listed(path, done, whitelist)
      decreases SizeAll(todo)
    {
      var found;
      found, marked := NodeViolations(path, root, parents, todo[0], whitelist, marked);
      Advance(root, done, todo);
      UnlistedJoin(path, done, NodeSites(root, todo[0]), whitelist);
      ListedJoin(path, done, NodeSites(root, todo[0]), whitelist);
      violations := violations + found;
      done := done + NodeSites(root, todo[0]);
      todo := Next(todo);
    }
    assert done == Sites(root, [root]);
  }

  // ---- Stale whitelist rows ----

  /** A file on disk; one without a tree cannot be parsed, and some are not scanned. */
  datatype File = File(path: string, tree: Option<Node>, scanned: bool)

  ghost predicate Plain(s: string) { ':' !in s }

  /** Names are identifiers, so none holds the separator of whitelist rows. */
  ghost predicate PlainNames(t: Node) {
    && (t.kind.ClassDef? ==> Plain(t.kind.name))
    && (t.kind.FunctionDef? ==> Plain(t.kind.name) && forall i :: 0 <= i < |t.kind.slots| ==>
        Plain(t.kind.slots[i].name))
    && forall i :: 0 <= i < |t.children| ==> PlainNames(t.children[i])
  }

  ghost predicate Parsed(f: File) {
    Plain(f.path) && (f.tree.Some? ==> Identified(f.tree.value) && PlainNames(f.tree.value))
  }

  ghost predicate OnDisk(files: seq<File>) {
    && (forall i :: 0 <= i < |files| ==> Parsed(files[i]))
    && (forall i, j :: 0 <= i < j < |files| ==> files[i].path != files[j].path)
  }

  ghost function PatternsOf(f: File): seq<string> {
    if f.tree.None? then [] else Names(f.path, Sites(f.tree.value, [f.tree.value]))
  }

  function Colons(s: string): nat {
    if s == "" then 0 else (if s[0] == ':' then 1 else 0) + Colons(s[1..])
  }

  /** What stands before the first colon. */
  function FilePart(s: string): string {
    if s == "" || s[0] == ':' then "" else [s[0]] + FilePart(s[1..])
  }

  /** Validation reads the file the row names and looks for the row among its patterns. */
  ghost predicate RowValid(row: string, files: seq<File>) {
    Colons(row) == 2 && exists i :: 0 <= i < |files| && files[i].path == FilePart(row) && row in PatternsOf(files[i])
  }

  lemma {:induction false} FirstPart(a: string, b: string)
    requires Plain(a)
    ensures Colons(a) == 0 && Colons(a + ":" + b) == 1 + Colons(b) && FilePart(a + ":" + b) == a
  {
    var s := a + ":" + b;
    if a == "" {
      assert s[1..] == b;
    } else {
      FirstPart(a[1..], b);
      assert s[1..] == a[1..] + ":" + b;
    }
  }

  lemma {:induction false} Regroup(a: string, b: string, c: string)
    ensures a + ":" + b + ":" + c == a + ":" + (b + ":" + c)
  {
  }

  lemma {:induction false} QualifiedShape(path: string, site: Site)
    requires Plain(path) && Plain(site.context) && Plain(site.slot)
    ensures Colons(Qualified(path, site)) == 2 && FilePart(Qualified(path, site)) == path
  {
    FirstPart(site.slot, "");
    FirstPart(site.context, site.slot);
    FirstPart(path, site.context + ":" + site.slot);
    Regroup(path, site.context, site.slot);
  }

  lemma {:induction false} NearestPlain(t: Node, id: nat, acc: Option<string>)
    requires Occ(t, id) > 0 && PlainNames(t) && (acc.Some? ==> Plain(acc.value))
    ensures var r := Nearest(t, id, acc); r.Some? ==> Plain(r.value)
    decreases Size(t)
  {
    if t.id != id { NearestPlain(Holder(t.children, id), id, Named(t, acc)); }
  }

  ghost predicate PlainSites(sites: seq<Site>) {
    forall i :: 0 <= i < |sites| ==> Plain(sites[i].context) && Plain(sites[i].slot)
  }

  lemma {:induction false} SitesPlain(root: Node, queue: seq<Node>)
    requires PlainNames(root) && forall i :: 0 <= i < |queue| ==> PlainNames(queue[i])
    ensures PlainSites(Sites(root, queue))
    decreases SizeAll(queue)
  {
    if queue != [] {
      var n := queue[0];
      if n.kind.FunctionDef? && Occ(root, n.id) > 0 { NearestPlain(root, n.id, None); }
      SitesPlain(root, Next(queue));
    }
  }

  /** Every pattern of a file has three parts, the first of them the file's path. */
  lemma {:induction false} PatternShape(f: File, row: string)
    requires Parsed(f) && row in PatternsOf(f)
    ensures Colons(row) == 2 && FilePart(row) == f.path
  {
    var root := f.tree.value;
    SitesPlain(root, [root]);
    var i :| 0 <= i < |Sites(root, [root])| && row == Qualified(f.path, Sites(root, [root])[i]);
    var site := Sites(root, [root])[i];
    QualifiedShape(f.path, site);
  }

  /** The rows the scan matches. */
  ghost function Matched(files: seq<File>, whitelist: set<string>): set<string> {
    set row | row in whitelist && InScan(files, row)
  }

  ghost predicate InScan(files: seq<File>, row: string) {
    exists i :: 0 <= i < |files| && files[i].scanned && row in PatternsOf(files[i])
  }

  /** A matched row passes validation, and a valid row of a scanned file is matched. */
  lemma {:induction false} MatchedIsValid(files: seq<File>, row: string)
    requires OnDisk(files)
    ensures InScan(files, row) ==> RowValid(row, files)
    ensures RowValid(row, files) ==>
              exists i :: 0 <= i < |files| && files[i].path == FilePart(row) && (files[i].scanned ==>
                  InScan(files, row))
  {
    if InScan(files, row) {
      var i :| 0 <= i < |files| && files[i].scanned && row in PatternsOf(files[i]);
      PatternShape(files[i], row);
    }
  }

  /** Scans every file that is in scope. */
  method ScanFiles(files: seq<File>, whitelist: set<string>) returns (matched: set<string>)
    requires OnDisk(files)
    ensures matched == Matched(files, whitelist)
  {
    matched := {};
    for i := 0 to |files|
      invariant matched == Matched(files[..i], whitelist)
    {
      MatchedAppend(files[..i], files[i], whitelist);
      assert files[..i + 1] == files[..i] + [files[i]];
      if files[i].scanned && files[i].tree.Some? {
        var violations;
        violations, matched := FindDictViolations(files[i].path, files[i].tree.value, whitelist, matched);
      }
    }
    assert files[..|files|] == files;
  }

  lemma {:induction false} MatchedAppend(files: seq<File>, f: File, whitelist: set<string>)
    ensures Matched(files + [f], whitelist) ==
            Matched(files, whitelist) + if f.scanned then set row | row in whitelist && row in PatternsOf(f) else {}
  {
    forall row ensures InScan(files + [f], row) <==> InScan(files, row) || (f.scanned && row in PatternsOf(f)) {
      InScanAppend(files, f, row);
    }
  }

  lemma {:induction false} InScanAppend(files: seq<File>, f: File, row: string)
    ensures InScan(files + [f], row) <==> InScan(files, row) || (f.scanned && row in PatternsOf(f))
  {
    var all := files + [f];
    if InScan(all, row) {
      var i :| 0 <= i < |all| && all[i].scanned && row in PatternsOf(all[i]);
      assert i < |files| ==> files[i] == all[i];
    }
    if InScan(files, row) {
      var i :| 0 <= i < |files| && files[i].scanned && row in PatternsOf(files[i]);
      assert all[i] == files[i];
    }
    assert all[|files|] == f;
  }

  lemma {:induction false} RowOfFile(row: string, files: seq<File>, i: nat)
    requires OnDisk(files) && i < |files| && files[i].path == FilePart(row)
    ensures RowValid(row, files) <==> Colons(row) == 2 && row in PatternsOf(files[i])
  {
    if RowValid(row, files) {
      var j :| 0 <= j < |files| && files[j].path == FilePart(row) && row in PatternsOf(files[j]);
      assert i == j;
    }
  }

  /** Whether a row passes validation: the file it names has the row among its patterns. */
  method ValidateRow(row: string, files: seq<File>) returns (valid: bool)
    requires OnDisk(files)
    ensures valid <==> RowValid(row, files)
  {
    if Colons(row) != 2 {
      return false;
    }
    for i := 0 to |files|
      invariant forall j :: 0 <= j < i ==> files[j].path != FilePart(row)
    {
      if files[i].path == FilePart(row) {
        RowOfFile(row, files, i);
        valid := false;
        if files[i].tree.Some? {
          var patterns := FindDictPatterns(files[i].path, files[i].tree.value);
          valid := row in patterns;
        }
        return;
      }
    }
    valid := false;
  }

  /** The stale rows are those no file on disk has among its patterns; a matched row is never one. */
  method FindStaleEntries(entries: seq<string>, matched: set<string>, files: seq<File>) returns (stale: seq<string>)
    requires OnDisk(files)
    requires forall row :: row in matched ==> InScan(files, row)
    ensures forall row :: row in stale <==> row in entries && !RowValid(row, files)
    ensures forall row :: row in stale ==> row !in matched
  {
    stale := [];
    for i := 0 to |entries|
      invariant forall row :: row in stale <==> row in entries[..i] && !RowValid(row, files)
    {
      MatchedIsValid(files, entries[i]);
      assert entries[..i + 1] == entries[..i] + [entries[i]];
      if entries[i] in matched {
        continue;
      }
      var valid := ValidateRow(entries[i], files);
      if !valid {
        stale := stale + [entries[i]];
      }
    }
    assert entries[..|entries|] == entries;
    forall row | row in stale ensures row !in matched { MatchedIsValid(files, row); }
  }
}
