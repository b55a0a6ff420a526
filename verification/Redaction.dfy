/**
 Evidence redaction and the scan that admits evidence. What redaction writes has to pass the scan,
 and evidence that passes must not be changed. The scan looks into tuples, redaction does not.
 */
module Redaction {

  datatype Value =
    | Scalar(n: int) | Text(s: string) | List(items: seq<Value>)
    | Tuple(parts: seq<Value>) | Object(fields: seq<Field>)
  datatype Field = Field(key: string, child: Value)

  /** The two regular expressions, as the predicates they decide. */
  datatype Patterns = Patterns(sensitiveKey: string -> bool, sensitiveText: string -> bool)

  const MASK := "[redacted]"

  /** The mask itself is not sensitive. */
  ghost predicate MaskIsPlain(p: Patterns) { !p.sensitiveText(MASK) }

  function Redact(v: Value, p: Patterns): Value {
    match v
    case Scalar(_) => v
    case Text(s) => if p.sensitiveText(s) then Text(MASK) else v
    case List(items) => List(RedactItems(items, p))
    case Tuple(_) => v
    case Object(fields) => Object(RedactFields(fields, p))
  }

  function RedactItems(items: seq<Value>, p: Patterns): seq<Value> {
    if items == [] then [] else [Redact(items[0], p)] + RedactItems(items[1..], p)
  }

  function RedactFields(fields: seq<Field>, p: Patterns): (r: seq<Field>)
    ensures |r| <= |fields|
  {
    if fields == [] then []
    else
      (if p.sensitiveKey(fields[0].key) then [] else [Field(fields[0].key, Redact(fields[0].child, p))])
      + RedactFields(fields[1..], p)
  }

  /** No sensitive key and no sensitive text anywhere, tuples included. */
  predicate Passes(v: Value, p: Patterns) {
    match v
    case Scalar(_) => true
    case Text(s) => !p.sensitiveText(s)
    case List(items) => forall i :: 0 <= i < |items| ==> Passes(items[i], p)
    case Tuple(parts) => forall i :: 0 <= i < |parts| ==> Passes(parts[i], p)
    case Object(fields) => forall i :: 0 <= i < |fields| ==>
        !p.sensitiveKey(fields[i].key) && Passes(fields[i].child, p)
  }

  /** The tuples redaction meets, outside dropped fields, pass the scan. */
  predicate TuplesPass(v: Value, p: Patterns) {
    match v
    case Scalar(_) => true
    case Text(_) => true
    case List(items) => forall i :: 0 <= i < |items| ==> TuplesPass(items[i], p)
    case Tuple(_) => Passes(v, p)
    case Object(fields) => forall i :: 0 <= i < |fields| ==>
        p.sensitiveKey(fields[i].key) || TuplesPass(fields[i].child, p)
  }

  /** JSON has no tuples. */
  predicate IsJson(v: Value) {
    match v
    case Scalar(_) => true
    case Text(_) => true
    case List(items) => forall i :: 0 <= i < |items| ==> IsJson(items[i])
    case Tuple(_) => false
    case Object(fields) => forall i :: 0 <= i < |fields| ==> IsJson(fields[i].child)
  }

  /** Redacted output passes the scan exactly when the tuples it met do. */
  lemma {:induction false} RedactPasses(v: Value, p: Patterns)
    requires MaskIsPlain(p)
    ensures Passes(Redact(v, p), p) <==> TuplesPass(v, p)
  {
    match v
    case Scalar(_) =>
    case Text(_) =>
    case Tuple(_) =>
    case List(items) => ItemsPass(items, p);
    case Object(fields) => FieldsPass(fields, p);
  }

  lemma {:induction false} ItemsPass(items: seq<Value>, p: Patterns)
    requires MaskIsPlain(p)
    ensures Passes(List(RedactItems(items, p)), p) <==> TuplesPass(List(items), p)
    decreases items
  {
    if items != [] {
      RedactPasses(items[0], p);
      ItemsPass(items[1..], p);
      ListSplit(items, p);
      ListSplit(RedactItems(items, p), p);
    }
  }

  lemma {:induction false} ListSplit(items: seq<Value>, p: Patterns)
    requires items != []
    ensures Passes(List(items), p) <==> Passes(items[0], p) && Passes(List(items[1..]), p)
    ensures TuplesPass(List(items), p) <==> TuplesPass(items[0], p) && TuplesPass(List(items[1..]), p)
  {
    assert forall i :: 1 <= i < |items| ==> items[i] == items[1..][i - 1];
  }

  lemma {:induction false} ObjectSplit(fields: seq<Field>, p: Patterns)
    requires fields != []
    ensures Passes(Object(fields), p) <==>
            !p.sensitiveKey(fields[0].key) && Passes(fields[0].child, p) && Passes(Object(fields[1..]), p)
    ensures TuplesPass(Object(fields), p) <==>
            (p.sensitiveKey(fields[0].key) || TuplesPass(fields[0].child, p)) && TuplesPass(Object(fields[1..]), p)
  {
    assert forall i :: 1 <= i < |fields| ==> fields[i] == fields[1..][i - 1];
  }

  lemma {:induction false} FieldsPass(fields: seq<Field>, p: Patterns)
    requires MaskIsPlain(p)
    ensures Passes(Object(RedactFields(fields, p)), p) <==> TuplesPass(Object(fields), p)
    decreases fields
  {
    if fields != [] {
      RedactPasses(fields[0].child, p);
      FieldsPass(fields[1..], p);
      ObjectSplit(fields, p);
      var r := RedactFields(fields, p);
      if p.sensitiveKey(fields[0].key) {
        assert r == RedactFields(fields[1..], p);
      } else {
        ObjectSplit(r, p);
        assert r[1..] == RedactFields(fields[1..], p);
      }
    }
  }

  /** The fields of a redacted object are the redactions of those with a plain key, and no others. */
  lemma {:induction false} FieldsKept(fields: seq<Field>, p: Patterns, f: Field)
    ensures f in RedactFields(fields, p) <==>
            exists i :: 0 <= i < |fields| && !p.sensitiveKey(fields[i].key)
                && f == Field(fields[i].key, Redact(fields[i].child, p))
  {
    if fields != [] {
      FieldsKept(fields[1..], p, f);
      assert forall i :: 1 <= i < |fields| ==> fields[i] == fields[1..][i - 1];
      if f in RedactFields(fields[1..], p) {
        var i :| 0 <= i < |fields[1..]| && !p.sensitiveKey(fields[1..][i].key)
                 && f == Field(fields[1..][i].key, Redact(fields[1..][i].child, p));
        assert fields[i + 1] == fields[1..][i];
      }
      if exists i :: 0 <= i < |fields| && !p.sensitiveKey(fields[i].key)
          && f == Field(fields[i].key, Redact(fields[i].child, p)) {
        var i :| 0 <= i < |fields| && !p.sensitiveKey(fields[i].key)
            && f == Field(fields[i].key, Redact(fields[i].child, p));
        assert i == 0 || fields[1..][i - 1] == fields[i];
      }
    }
  }

  /** A value passes the scan exactly when its tuples do and redaction leaves it unchanged. */
  lemma {:induction false} UnchangedIffPasses(v: Value, p: Patterns)
    requires MaskIsPlain(p)
    ensures Passes(v, p) <==> Redact(v, p) == v && TuplesPass(v, p)
  {
    match v
    case Scalar(_) =>
    case Text(_) =>
    case Tuple(_) =>
    case List(items) => ItemsUnchanged(items, p);
    case Object(fields) => FieldsUnchanged(fields, p);
  }

  lemma {:induction false} ItemsUnchanged(items: seq<Value>, p: Patterns)
    requires MaskIsPlain(p)
    ensures Passes(List(items), p) <==> RedactItems(items, p) == items && TuplesPass(List(items), p)
    decreases items
  {
    if items != [] {
      UnchangedIffPasses(items[0], p);
      ItemsUnchanged(items[1..], p);
      ListSplit(items, p);
      var r := RedactItems(items, p);
      assert r[0] == Redact(items[0], p) && r[1..] == RedactItems(items[1..], p);
      assert r == items <==> r[0] == items[0] && r[1..] == items[1..] by {
        assert r == [r[0]] + r[1..] && items == [items[0]] + items[1..];
      }
    }
  }

  lemma {:induction false} FieldsUnchanged(fields: seq<Field>, p: Patterns)
    requires MaskIsPlain(p)
    ensures Passes(Object(fields), p) <==> RedactFields(fields, p) == fields && TuplesPass(Object(fields), p)
    decreases fields
  {
    if fields != [] {
      UnchangedIffPasses(fields[0].child, p);
      FieldsUnchanged(fields[1..], p);
      ObjectSplit(fields, p);
      var r := RedactFields(fields, p);
      if p.sensitiveKey(fields[0].key) {
        assert |r| < |fields|;
      } else {
        assert r[0] == Field(fields[0].key, Redact(fields[0].child, p)) && r[1..] == RedactFields(fields[1..], p);
        assert r == fields <==> r[0] == fields[0] && r[1..] == fields[1..] by {
          assert r == [r[0]] + r[1..] && fields == [fields[0]] + fields[1..];
        }
      }
    }
  }

  lemma {:induction false} JsonHasNoTuples(v: Value, p: Patterns)
    requires IsJson(v)
    ensures TuplesPass(v, p)
  {
    match v
    case Scalar(_) =>
    case Text(_) =>
    case List(items) => forall i | 0 <= i < |items| ensures TuplesPass(items[i], p) { JsonHasNoTuples(items[i], p); }
    case Object(fields) =>
      forall i | 0 <= i < |fields| ensures TuplesPass(fields[i].child, p) { JsonHasNoTuples(fields[i].child, p); }
  }

  /** On JSON: the output passes, it stays as it is when redacted again, and only failing input changes. */
  lemma {:induction false} RedactionOfJson(v: Value, p: Patterns)
    requires MaskIsPlain(p) && IsJson(v)
    ensures Passes(Redact(v, p), p)
    ensures Redact(Redact(v, p), p) == Redact(v, p)
    ensures Redact(v, p) == v <==> Passes(v, p)
  {
    JsonHasNoTuples(v, p);
    RedactPasses(v, p);
    UnchangedIffPasses(v, p);
    UnchangedIffPasses(Redact(v, p), p);
  }

  /** The two differ on tuples: one holding a matching text is returned as it is and fails the scan. */
  lemma {:induction false} TupleReturnedAsIs(s: string, p: Patterns)
    requires p.sensitiveText(s)
    ensures Redact(Tuple([Text(s)]), p) == Tuple([Text(s)]) && !Passes(Tuple([Text(s)]), p)
  {
    assert !Passes([Text(s)][0], p);
  }
}
