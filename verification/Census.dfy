/**
 The soft-mapping census: sites are tabulated per file and form, the table is pinned with its totals,
 and a later tree is compared against the pin. The scanner can produce one form that the totals and
 the loader do not know.
 */
module Census {
  import opened Common

  /** The forms the scanner can spell: a container with string keys, and the kind of its values. */
  datatype Form = DictAny | MappingAny | MutableMappingAny | DictObject | MappingObject | MutableMappingObject

  /** A table column; a hand-edited pin can name columns that are none of ours. */
  datatype Column = In(form: Form) | Boundary | Other(name: string)

  datatype Site = Site(file: string, form: Form, boundary: bool)

  type Row = map<Column, nat>
  type Table = map<string, Row>

  /** The five listed forms. */
  const SOFT_FORMS := {DictAny, MappingAny, MutableMappingAny, DictObject, MappingObject}

  predicate Known(c: Column) { (c.In? && c.form in SOFT_FORMS) || c.Boundary? }

  /** The six forms are all there is, and five of them are listed. */
  lemma {:induction false} AllForms(form: Form)
    ensures form == DictAny || form == MappingAny || form == MutableMappingAny || form == DictObject
            || form == MappingObject || form == MutableMappingObject
    ensures form in SOFT_FORMS <==> form != MutableMappingObject
  {
    match form {
      case DictAny => case MappingAny => case MutableMappingAny => case DictObject =>
      case MappingObject => case MutableMappingObject =>
    }
  }

  function ColumnOf(site: Site): Column { if site.boundary then Boundary else In(site.form) }

  // ---- Recognising a form ----

  /** An annotation: a subscript's `args` are the elements of its tuple. */
  datatype Expr = Name(id: string) | Attribute(attr: string) | Subscript(base: Expr, args: seq<Expr>) | OtherExpr

  function AnnotationName(e: Expr): Option<string> {
    if e.Name? then Some(e.id) else if e.Attribute? then Some(e.attr) else None
  }

  /** The form of a container and a value name. */
  function FormOf(container: string, value: string): Option<Form> {
    var plain := value == "Any";
    if value != "Any" && value != "object" then None
    else if container == "dict" || container == "Dict" then Some(if plain then DictAny else DictObject)
    else if container == "Mapping" then Some(if plain then MappingAny else MappingObject)
    else if container == "MutableMapping" then Some(if plain then MutableMappingAny else MutableMappingObject)
    else None
  }

  function SoftMappingForm(e: Expr, aliases: set<string>): Option<Form> {
    if e.Name? && e.id in aliases then Some(DictAny)
    else if !e.Subscript? || |e.args| != 2 then None
    else
      var container, key, value := AnnotationName(e.base), AnnotationName(e.args[0]), AnnotationName(e.args[1]);
      if container.None? || key != Some("str") || value.None? then None else FormOf(container.value, value.value)
  }

  /** How the source spells a form: one of the container's names, string keys, and the value's name. */
  ghost predicate Spells(e: Expr, form: Form) {
    && e.Subscript? && |e.args| == 2 && AnnotationName(e.args[0]) == Some("str")
    && (AnnotationName(e.base) == Some("dict") || AnnotationName(e.base) == Some("Dict") <==>
        form.DictAny? || form.DictObject?)
    && (AnnotationName(e.base) == Some("Mapping") <==> form.MappingAny? || form.MappingObject?)
    && (AnnotationName(e.base) == Some("MutableMapping") <==> form.MutableMappingAny? || form.MutableMappingObject?)
    && AnnotationName(e.args[1]) ==
       Some(if form.DictAny? || form.MappingAny? || form.MutableMappingAny? then "Any" else "object")
  }

  /** A form is recognised exactly where it is spelled out, or an alias stands for it. */
  lemma {:induction false} FormIsSpelled(e: Expr, aliases: set<string>, form: Form)
    ensures SoftMappingForm(e, aliases) == Some(form) <==>
            if e.Name? && e.id in aliases then form == DictAny else Spells(e, form)
  {
    assert |"Any"| == 3 && |"object"| == 6 && |"Mapping"| == 7 && |"MutableMapping"| == 14;
    assert |"dict"| == |"Dict"| == 4 && "dict"[0] == 'd' && "Dict"[0] == 'D';
  }

  /** Each of the six forms arises from an annotation, the one the totals leave out among them. */
  lemma {:induction false} EveryFormArises(form: Form)
    ensures exists e :: SoftMappingForm(e, {}) == Some(form)
  {
    var container := if form.DictAny? || form.DictObject? then "dict"
                     else if form.MappingAny? || form.MappingObject? then "Mapping" else "MutableMapping";
    var value := if form.DictAny? || form.MappingAny? || form.MutableMappingAny? then "Any" else "object";
    assert |"Any"| == 3 && |"object"| == 6 && |"Mapping"| == 7 && |"MutableMapping"| == 14 && |"dict"| == 4 == |"Dict"|;
    var e := Subscript(Name(container), [Name("str"), Name(value)]);
    assert SoftMappingForm(e, {}) == FormOf(container, value);
  }

  function RowGet(row: Row, c: Column): nat { if c in row then row[c] else 0 }

  function Cell(table: Table, file: string, c: Column): nat { if file in table then RowGet(table[file], c) else 0 }

  // ---- Tabulating ----

  function Bump(table: Table, file: string, c: Column): Table {
    var row: Row := if file in table then table[file] else map[];
    table[file := row[c := RowGet(row, c) + 1]]
  }

  function Tabulated(sites: seq<Site>): Table {
    if sites == [] then map[]
    else Bump(Tabulated(sites[..|sites| - 1]), sites[|sites| - 1].file, ColumnOf(sites[|sites| - 1]))
  }

  function CountSites(sites: seq<Site>, file: string, c: Column): nat {
    if sites == [] then 0
    else
      var last := sites[|sites| - 1];
      CountSites(sites[..|sites| - 1], file, c) + if last.file == file && ColumnOf(last) == c then 1 else 0
  }

  function CountColumn(sites: seq<Site>, c: Column): nat {
    if sites == [] then 0
    else CountColumn(sites[..|sites| - 1], c) + if ColumnOf(sites[|sites| - 1]) == c then 1 else 0
  }

  /** Each cell counts the sites of its file and column, and zero cells are left out. */
  lemma {:induction false} TabulatedCells(sites: seq<Site>, file: string, c: Column)
    ensures Cell(Tabulated(sites), file, c) == CountSites(sites, file, c)
    ensures file in Tabulated(sites) && c in Tabulated(sites)[file] ==> Tabulated(sites)[file][c] > 0
  {
    if sites != [] { TabulatedCells(sites[..|sites| - 1], file, c); }
  }

  method TabulateCensus(sites: seq<Site>) returns (table: Table)
    ensures table == Tabulated(sites)
  {
    table := map[];
    for i := 0 to |sites|
      invariant table == Tabulated(sites[..i])
    {
      assert sites[..i + 1][..i] == sites[..i];
      var site := sites[i];
      var column := if site.boundary then Boundary else In(site.form);
      if site.file !in table {
        table := table[site.file := map[]];
      }
      var row := table[site.file];
      table := table[site.file := row[column := RowGet(row, column) + 1]];
    }
    assert sites[..|sites|] == sites;
  }

  // ---- Totals ----

  ghost function SumOver(files: set<string>, table: Table, c: Column): nat {
    if files == {} then 0
    else var f :| f in files; Cell(table, f, c) + SumOver(files - {f}, table, c)
  }

  lemma {:induction false} SumRemove(files: set<string>, table: Table, c: Column, f: string)
    requires f in files
    ensures SumOver(files, table, c) == Cell(table, f, c) + SumOver(files - {f}, table, c)
    decreases files
  {
    var g :| g in files && SumOver(files, table, c) == Cell(table, g, c) + SumOver(files - {g}, table, c);
    if f != g {
      SumRemove(files - {g}, table, c, f);
      SumRemove(files - {f}, table, c, g);
      assert files - {g} - {f} == files - {f} - {g};
    }
  }

  /** The total of a column over the whole table. */
  ghost function ColumnTotal(table: Table, c: Column): nat { SumOver(table.Keys, table, c) }

  lemma {:induction false} SumAgrees(files: set<string>, a: Table, b: Table, c: Column)
    requires forall f :: f in files ==> Cell(a, f, c) == Cell(b, f, c)
    ensures SumOver(files, a, c) == SumOver(files, b, c)
    decreases files
  {
    if files != {} {
      var f :| f in files;
      SumRemove(files, a, c, f);
      SumRemove(files, b, c, f);
      SumAgrees(files - {f}, a, b, c);
    }
  }

  /** Files without a row add nothing. */
  lemma {:induction false} SumWiden(files: set<string>, extra: set<string>, table: Table, c: Column)
    requires forall f :: f in extra ==> f in files || Cell(table, f, c) == 0
    ensures SumOver(files + extra, table, c) == SumOver(files, table, c)
    decreases extra
  {
    if extra == {} {
      assert files + extra == files;
    } else {
      var f :| f in extra;
      SumWiden(files, extra - {f}, table, c);
      if f in files {
        assert files + extra == files + (extra - {f});
      } else {
        SumRemove(files + extra, table, c, f);
        assert files + extra - {f} == files + (extra - {f});
      }
    }
  }

  /** Tables that agree cell by cell have the same totals, whatever rows they list. */
  lemma {:induction false} TotalsAgree(a: Table, b: Table, c: Column)
    requires forall f :: Cell(a, f, c) == Cell(b, f, c)
    ensures ColumnTotal(a, c) == ColumnTotal(b, c)
  {
    SumWiden(a.Keys, b.Keys, a, c);
    SumWiden(b.Keys, a.Keys, b, c);
    assert a.Keys + b.Keys == b.Keys + a.Keys;
    SumAgrees(a.Keys + b.Keys, a, b, c);
  }

  lemma {:induction false} BumpCell(table: Table, file: string, c: Column, g: string, d: Column)
    ensures Cell(Bump(table, file, c), g, d) == Cell(table, g, d) + if file == g && c == d then 1 else 0
  {
  }

  /** A table with one more at one place has one more in that column's sum. */
  lemma {:induction false} SumBumped(files: set<string>, a: Table, b: Table, file: string, c: Column, more: nat)
    requires file in files && Cell(b, file, c) == Cell(a, file, c) + more
    requires forall f :: f in files && f != file ==> Cell(a, f, c) == Cell(b, f, c)
    ensures SumOver(files, b, c) == SumOver(files, a, c) + more
  {
    SumRemove(files, a, c, file);
    SumRemove(files, b, c, file);
    SumAgrees(files - {file}, a, b, c);
  }

  lemma {:induction false} BumpTotal(table: Table, file: string, c: Column, d: Column)
    ensures ColumnTotal(Bump(table, file, c), d) == ColumnTotal(table, d) + if c == d then 1 else 0
  {
    var after := Bump(table, file, c);
    forall g ensures Cell(after, g, d) == Cell(table, g, d) + if file == g && c == d then 1 else 0 {
      BumpCell(table, file, c, g, d);
    }
    assert after.Keys == table.Keys + {file};
    SumWiden(table.Keys, {file}, table, d);
    SumBumped(after.Keys, table, after, file, d, if c == d then 1 else 0);
  }

  lemma {:induction false} TabulatedTotal(sites: seq<Site>, c: Column)
    ensures ColumnTotal(Tabulated(sites), c) == CountColumn(sites, c)
  {
    if sites != [] {
      var front, last := sites[..|sites| - 1], sites[|sites| - 1];
      TabulatedTotal(front, c);
      BumpTotal(Tabulated(front), last.file, ColumnOf(last), c);
    }
  }

  /** What a pin stores: the score, the boundary count and one count per listed form. */
  datatype Key = Soft | Of(column: Column)

  type Totals = map<Key, int>

  function TotalGet(totals: Totals, k: Key): int { if k in totals then totals[k] else 0 }

  ghost function SoftTotal(table: Table): nat {
    ColumnTotal(table, In(DictAny)) + ColumnTotal(table, In(MappingAny)) + ColumnTotal(table, In(MutableMappingAny))
    + ColumnTotal(table, In(DictObject)) + ColumnTotal(table, In(MappingObject))
  }

  ghost function Expected(table: Table, k: Key): nat {
    if k == Soft then SoftTotal(table) else if Known(k.column) then ColumnTotal(table, k.column) else 0
  }

  ghost predicate IsTotals(table: Table, totals: Totals) {
    forall k :: TotalGet(totals, k) == Expected(table, k)
  }

  /** Adds up the rows in any order. */
  method ColumnSums(table: Table) returns (sums: Row)
    ensures forall c :: RowGet(sums, c) == ColumnTotal(table, c)
  {
    sums := map[];
    var files := table.Keys;
    while files != {}
      invariant files <= table.Keys
      invariant forall c :: RowGet(sums, c) + SumOver(files, table, c) == ColumnTotal(table, c)
      decreases files
    {
      var f :| f in files;
      forall c ensures SumOver(files, table, c) == Cell(table, f, c) + SumOver(files - {f}, table, c) {
        SumRemove(files, table, c, f);
      }
      sums := AddRow(sums, table[f]);
      files := files - {f};
    }
  }

  method AddRow(sums: Row, row: Row) returns (r: Row)
    ensures forall c :: RowGet(r, c) == RowGet(sums, c) + RowGet(row, c)
  {
    r := sums;
    var columns := row.Keys;
    while columns != {}
      invariant columns <= row.Keys
      invariant forall c :: RowGet(r, c) == RowGet(sums, c) + if c in columns then 0 else RowGet(row, c)
      decreases columns
    {
      var c :| c in columns;
      r := r[c := RowGet(r, c) + row[c]];
      columns := columns - {c};
    }
  }

  method CensusTotals(table: Table) returns (totals: Totals)
    ensures IsTotals(table, totals)
  {
    var sums := ColumnSums(table);
    var soft := RowGet(sums, In(DictAny)) + RowGet(sums, In(MappingAny)) + RowGet(sums, In(MutableMappingAny))
                + RowGet(sums, In(DictObject)) + RowGet(sums, In(MappingObject));
    totals := map[Soft := soft, Of(Boundary) := RowGet(sums, Boundary),
                  Of(In(DictAny)) := RowGet(sums, In(DictAny)), Of(In(MappingAny)) := RowGet(sums, In(MappingAny)),
                  Of(In(MutableMappingAny)) := RowGet(sums, In(MutableMappingAny)),
                  Of(In(DictObject)) := RowGet(sums, In(DictObject)), Of(In(MappingObject)) := RowGet(sums,
                      In(MappingObject))];
    forall c ensures TotalGet(totals, Of(c)) == Expected(table, Of(c)) {
      if c.In? {
        match c.form {
          case DictAny => case MappingAny => case MutableMappingAny => case DictObject =>
          case MappingObject => case MutableMappingObject =>
        }
      }
    }
    assert TotalGet(totals, Soft) == Expected(table, Soft);
  }

  lemma {:induction false} ColumnsCover(sites: seq<Site>)
    ensures |sites| == CountColumn(sites, In(DictAny)) + CountColumn(sites, In(MappingAny))
                       + CountColumn(sites, In(MutableMappingAny))
                       + CountColumn(sites, In(DictObject)) + CountColumn(sites, In(MappingObject))
                       + CountColumn(sites, In(MutableMappingObject)) + CountColumn(sites, Boundary)
  {
    if sites != [] {
      ColumnsCover(sites[..|sites| - 1]);
      AllForms(sites[|sites| - 1].form);
    }
  }

  /** A site of the form the totals leave out, not parsed at a boundary. */
  ghost predicate Stray(site: Site) { ColumnOf(site) == In(MutableMappingObject) }

  lemma {:induction false} CountStrays(sites: seq<Site>)
    ensures CountColumn(sites, In(MutableMappingObject)) == 0 <==> forall i :: 0 <= i < |sites| ==> !Stray(sites[i])
  {
    if sites != [] {
      var front := sites[..|sites| - 1];
      CountStrays(front);
      assert forall i :: 0 <= i < |front| ==> front[i] == sites[i];
    }
  }

  /** The score and the boundary count make up all sites exactly when no site is a stray. */
  lemma {:induction false} ScoreCoversSites(sites: seq<Site>, totals: Totals)
    requires IsTotals(Tabulated(sites), totals)
    ensures TotalGet(totals, Soft) + TotalGet(totals, Of(Boundary)) + CountColumn(sites,
        In(MutableMappingObject)) == |sites|
    ensures TotalGet(totals, Soft) + TotalGet(totals, Of(Boundary)) == |sites| <==>
            forall i :: 0 <= i < |sites| ==> !Stray(sites[i])
  {
    TabulatedTotal(sites, In(DictAny));
    TabulatedTotal(sites, In(MappingAny));
    TabulatedTotal(sites, In(MutableMappingAny));
    TabulatedTotal(sites, In(DictObject));
    TabulatedTotal(sites, In(MappingObject));
    TabulatedTotal(sites, Boundary);
    ColumnsCover(sites);
    CountStrays(sites);
  }

  // ---- Comparing with the pin ----

  datatype Drift =
    | CellDrift(file: string, column: Column, pinned: int, live: int)
    | TotalDrift(key: Key, pinned: int, live: int)

  /** Every disagreement between pin and tree, in either direction, or within the pin itself. */
  ghost predicate IsDrift(d: Drift, pinned: Table, stored: Totals, live: Table) {
    match d
    case CellDrift(file, c, before, after) =>
      before == Cell(pinned, file, c) && after == Cell(live, file, c) && before != after
    case TotalDrift(k, before, after) =>
      before == TotalGet(stored, k) && after == Expected(pinned, k) && before != after
  }

  ghost predicate NoDrift(pinned: Table, stored: Totals, live: Table) {
    && (forall file, c :: Cell(pinned, file, c) == Cell(live, file, c))
    && IsTotals(pinned, stored)
  }

  /** Without drift the stored totals are the live totals. */
  lemma {:induction false} NoDriftMeansLiveTotals(pinned: Table, stored: Totals, live: Table)
    requires NoDrift(pinned, stored, live)
    ensures IsTotals(live, stored)
  {
    forall c ensures ColumnTotal(pinned, c) == ColumnTotal(live, c) { TotalsAgree(pinned, live, c); }
  }

  method RowDrifts(file: string, pinned: Row, live: Row) returns (drifts: seq<Drift>)
    ensures forall d :: d in drifts <==>
              && d.CellDrift? && d.file == file && d.pinned != d.live
              && d.pinned == RowGet(pinned, d.column) && d.live == RowGet(live, d.column)
  {
    drifts := [];
    var columns := pinned.Keys + live.Keys;
    while columns != {}
      invariant columns <= pinned.Keys + live.Keys
      invariant forall d :: d in drifts <==>
                  && d.CellDrift? && d.file == file && d.pinned != d.live && d.column !in columns
                  && d.pinned == RowGet(pinned, d.column) && d.live == RowGet(live, d.column)
      decreases columns
    {
      var c :| c in columns;
      var before, after := RowGet(pinned, c), RowGet(live, c);
      if before != after {
        drifts := drifts + [CellDrift(file, c, before, after)];
      }
      columns := columns - {c};
    }
  }

  method TotalDrifts(stored: Totals, recomputed: Totals) returns (drifts: seq<Drift>)
    ensures forall d :: d in drifts <==>
              && d.TotalDrift? && d.pinned != d.live
              && d.pinned == TotalGet(stored, d.key) && d.live == TotalGet(recomputed, d.key)
  {
    drifts := [];
    var keys := stored.Keys + recomputed.Keys;
    while keys != {}
      invariant keys <= stored.Keys + recomputed.Keys
      invariant forall d :: d in drifts <==>
                  && d.TotalDrift? && d.pinned != d.live && d.key !in keys
                  && d.pinned == TotalGet(stored, d.key) && d.live == TotalGet(recomputed, d.key)
      decreases keys
    {
      var k :| k in keys;
      var before, after := TotalGet(stored, k), TotalGet(recomputed, k);
      if before != after {
        drifts := drifts + [TotalDrift(k, before, after)];
      }
      keys := keys - {k};
    }
  }

  /** The comparison finds every drift and nothing else. */
  method CompareCensus(pinned: Table, stored: Totals, live: Table) returns (drifts: seq<Drift>)
    ensures forall d :: d in drifts <==> IsDrift(d, pinned, stored, live)
    ensures drifts == [] <==> NoDrift(pinned, stored, live)
  {
    drifts := [];
    var files := pinned.Keys + live.Keys;
    while files != {}
      invariant files <= pinned.Keys + live.Keys
      invariant forall d :: d in drifts <==> d.CellDrift? && d.file !in files && IsDrift(d, pinned, stored, live)
      decreases files
    {
      var f :| f in files;
      var row := RowDrifts(f, if f in pinned then pinned[f] else map[], if f in live then live[f] else map[]);
      drifts := drifts + row;
      files := files - {f};
    }
    var recomputed := CensusTotals(pinned);
    var totals := TotalDrifts(stored, recomputed);
    drifts := drifts + totals;
    DriftFree(drifts, pinned, stored, live);
  }

  lemma {:induction false} DriftFree(drifts: seq<Drift>, pinned: Table, stored: Totals, live: Table)
    requires forall d :: d in drifts <==> IsDrift(d, pinned, stored, live)
    ensures drifts == [] <==> NoDrift(pinned, stored, live)
  {
    if drifts == [] {
      forall file, c ensures Cell(pinned, file, c) == Cell(live, file, c) {
        assert !IsDrift(CellDrift(file, c, Cell(pinned, file, c), Cell(live, file, c)), pinned, stored, live);
      }
      forall k ensures TotalGet(stored, k) == Expected(pinned, k) {
        assert !IsDrift(TotalDrift(k, TotalGet(stored, k), Expected(pinned, k)), pinned, stored, live);
      }
    } else {
      assert drifts[0] in drifts;
      assert IsDrift(drifts[0], pinned, stored, live);
    }
  }

  // ---- Pinning and loading ----

  /** A parsed pin; a value that is not an integer is `None`. */
  type RawRow = map<Column, Option<int>>
  type RawTable = map<string, RawRow>
  type RawTotals = map<Key, Option<int>>

  function WriteRow(row: Row): RawRow { map c | c in row :: Some(row[c]) }

  function WriteTable(table: Table): RawTable { map f | f in table :: WriteRow(table[f]) }

  function WriteTotals(totals: Totals): RawTotals { map k | k in totals :: Some(totals[k]) }

  ghost predicate RowLoadable(row: RawRow) {
    forall c :: c in row ==> Known(c) && row[c].Some? && row[c].value >= 0
  }

  ghost predicate Loadable(files: RawTable) {
    forall f :: f in files ==> RowLoadable(files[f])
  }

  ghost predicate TotalsLoadable(totals: RawTotals) {
    forall k :: k in totals ==> totals[k].Some?
  }

  /** A written row reads back as one row only. */
  lemma {:induction false} WriteRowInjective(a: Row, b: Row)
    requires WriteRow(a) == WriteRow(b)
    ensures a == b
  {
    assert a.Keys == WriteRow(a).Keys == b.Keys;
    forall c | c in a ensures a[c] == b[c] { assert WriteRow(a)[c] == WriteRow(b)[c]; }
  }

  lemma {:induction false} WriteTableInjective(a: Table, b: Table)
    requires WriteTable(a) == WriteTable(b)
    ensures a == b
  {
    assert a.Keys == WriteTable(a).Keys == b.Keys;
    forall f | f in a ensures a[f] == b[f] {
      assert WriteTable(a)[f] == WriteTable(b)[f];
      WriteRowInjective(a[f], b[f]);
    }
  }

  method LoadRow(row: RawRow) returns (r: Result<Row, string>)
    ensures r.Ok? <==> RowLoadable(row)
    ensures r.Ok? ==> WriteRow(r.value) == row
  {
    var counts: Row := map[];
    var todo := row.Keys;
    while todo != {}
      invariant todo <= row.Keys && counts.Keys == row.Keys - todo
      invariant forall c :: c in counts ==> Known(c) && row[c] == Some(counts[c])
      decreases todo
    {
      var c :| c in todo;
      if !Known(c) {
        return Err("unknown census column");
      }
      if row[c].None? || row[c].value < 0 {
        return Err("count must be a non-negative int");
      }
      counts := counts[c := row[c].value];
      todo := todo - {c};
    }
    return Ok(counts);
  }

  method LoadTable(files: RawTable) returns (r: Result<Table, string>)
    ensures r.Ok? <==> Loadable(files)
    ensures r.Ok? ==> WriteTable(r.value) == files
  {
    var table: Table := map[];
    var todo := files.Keys;
    while todo != {}
      invariant todo <= files.Keys && table.Keys == files.Keys - todo
      invariant forall f :: f in table ==> RowLoadable(files[f]) && WriteRow(table[f]) == files[f]
      decreases todo
    {
      var f :| f in todo;
      var row := LoadRow(files[f]);
      if row.Err? {
        return Err(row.error);
      }
      table := table[f := row.value];
      todo := todo - {f};
    }
    return Ok(table);
  }

  method LoadTotals(raw: RawTotals) returns (r: Result<Totals, string>)
    ensures r.Ok? <==> TotalsLoadable(raw)
    ensures r.Ok? ==> WriteTotals(r.value) == raw
  {
    var totals: Totals := map[];
    var todo := raw.Keys;
    while todo != {}
      invariant todo <= raw.Keys && totals.Keys == raw.Keys - todo
      invariant forall k :: k in totals ==> raw[k] == Some(totals[k])
      decreases todo
    {
      var k :| k in todo;
      if raw[k].None? {
        return Err("malformed totals entry");
      }
      totals := totals[k := raw[k].value];
      todo := todo - {k};
    }
    return Ok(totals);
  }

  /** Reads a pin back: what it returns is what was written, and it refuses exactly what it cannot have been. */
  method LoadCensus(files: RawTable, raw: RawTotals) returns (r: Result<(Table, Totals), string>)
    ensures r.Ok? <==> Loadable(files) && TotalsLoadable(raw)
    ensures r.Ok? ==> WriteTable(r.value.0) == files && WriteTotals(r.value.1) == raw
  {
    var table := LoadTable(files);
    if table.Err? {
      return Err(table.error);
    }
    var totals := LoadTotals(raw);
    if totals.Err? {
      return Err(totals.error);
    }
    return Ok((table.value, totals.value));
  }

  /** A fresh pin can be read back, and then shows no drift, exactly when no site is a stray. */
  lemma {:induction false} PinRoundTrip(sites: seq<Site>, totals: Totals)
    requires IsTotals(Tabulated(sites), totals)
    ensures Loadable(WriteTable(Tabulated(sites))) <==> forall i :: 0 <= i < |sites| ==> !Stray(sites[i])
    ensures TotalsLoadable(WriteTotals(totals)) && NoDrift(Tabulated(sites), totals, Tabulated(sites))
  {
    var table := Tabulated(sites);
    if forall i :: 0 <= i < |sites| ==> !Stray(sites[i]) {
      forall f | f in table ensures RowLoadable(WriteRow(table[f])) { RowWithoutStrays(sites, f); }
      assert forall f :: f in table ==> WriteTable(table)[f] == WriteRow(table[f]);
    } else {
      var i :| 0 <= i < |sites| && Stray(sites[i]);
      SiteCounts(sites, i);
      TabulatedCells(sites, sites[i].file, In(MutableMappingObject));
      assert WriteTable(table)[sites[i].file] == WriteRow(table[sites[i].file]);
      assert In(MutableMappingObject) in WriteRow(table[sites[i].file]);
    }
  }

  lemma {:induction false} RowWithoutStrays(sites: seq<Site>, f: string)
    requires f in Tabulated(sites) && forall i :: 0 <= i < |sites| ==> !Stray(sites[i])
    ensures RowLoadable(WriteRow(Tabulated(sites)[f]))
  {
    var row := Tabulated(sites)[f];
    forall c | c in row ensures Known(c) {
      TabulatedCells(sites, f, c);
      var i := SiteOf(sites, f, c);
      AllForms(sites[i].form);
    }
  }

  /** One stray site: the score and the boundary count miss it, and its pin cannot be read back. */
  lemma {:induction false} StrayIsLost(totals: Totals)
    requires IsTotals(Tabulated([Site("a.py", MutableMappingObject, false)]), totals)
    ensures TotalGet(totals, Soft) + TotalGet(totals, Of(Boundary)) == 0
    ensures !Loadable(WriteTable(Tabulated([Site("a.py", MutableMappingObject, false)])))
  {
    var sites := [Site("a.py", MutableMappingObject, false)];
    assert Stray(sites[0]);
    assert sites[..0] == [];
    assert CountColumn(sites, In(MutableMappingObject)) == 1;
    ScoreCoversSites(sites, totals);
    PinRoundTrip(sites, totals);
  }

  lemma {:induction false} SiteOf(sites: seq<Site>, f: string, c: Column) returns (i: nat)
    requires CountSites(sites, f, c) > 0
    ensures i < |sites| && sites[i].file == f && ColumnOf(sites[i]) == c
  {
    i := |sites| - 1;
    if sites[i].file != f || ColumnOf(sites[i]) != c { i := SiteOf(sites[..i], f, c); }
  }

  lemma {:induction false} SiteCounts(sites: seq<Site>, i: nat)
    requires i < |sites|
    ensures CountSites(sites, sites[i].file, ColumnOf(sites[i])) > 0
  {
    if i < |sites| - 1 { SiteCounts(sites[..|sites| - 1], i); }
  }
}
