/**
 The section editor of Markdown reports. A text is the list of its lines. What reading a section
 finds and what writing one changes are related for every text: a written section reads back, the
 others are untouched, and writes to different sections commute.
 */
module ReportSections {

  type Text = seq<string>

  // ---- Stripping lines and texts ----

  /** White space as `str.strip` sees it. */
  predicate IsSpace(c: char) {
    || '\U{0009}' <= c <= '\U{000D}' || '\U{001C}' <= c <= '\U{0020}' || c == '\U{0085}' || c == '\U{00A0}'
    || c == '\U{1680}' || '\U{2000}' <= c <= '\U{200A}' || c == '\U{2028}' || c == '\U{2029}'
    || c == '\U{202F}' || c == '\U{205F}' || c == '\U{3000}'
  }

  function LStrip(s: string): string {
    if s == [] then [] else if IsSpace(s[0]) then LStrip(s[1..]) else s
  }

  function RStrip(s: string): string {
    if s == [] then []
    else
      var r := RStrip(s[1..]);
      if r == [] && IsSpace(s[0]) then [] else [s[0]] + r
  }

  function Strip(s: string): string { LStrip(RStrip(s)) }

  predicate Blank(s: string) { Strip(s) == [] }

  /** Trailing white space removed from the text: blank lines at the end, then the end of the last line. */
  function TrimEnd(t: Text): Text {
    if t == [] then []
    else
      var r := TrimEnd(t[1..]);
      if r != [] then [t[0]] + r else if Blank(t[0]) then [] else [RStrip(t[0])]
  }

  function TrimStart(t: Text): Text {
    if t == [] then [] else if Blank(t[0]) then TrimStart(t[1..]) else [LStrip(t[0])] + t[1..]
  }

  function StripText(t: Text): Text { TrimStart(TrimEnd(t)) }

  lemma {:induction false} RStripIdempotent(s: string)
    ensures RStrip(RStrip(s)) == RStrip(s)
  {
    if s != [] {
      RStripIdempotent(s[1..]);
      var r := RStrip(s[1..]);
      if r != [] || !IsSpace(s[0]) { assert ([s[0]] + r)[1..] == r; }
    }
  }

  lemma {:induction false} LStripIdempotent(s: string)
    ensures LStrip(LStrip(s)) == LStrip(s)
  {
    if s != [] && IsSpace(s[0]) { LStripIdempotent(s[1..]); }
  }

  lemma {:induction false} RStripAfterLStrip(s: string)
    ensures RStrip(LStrip(s)) == LStrip(RStrip(s))
  {
    if s != [] {
      var r := RStrip(s[1..]);
      if IsSpace(s[0]) {
        RStripAfterLStrip(s[1..]);
        if r != [] { assert ([s[0]] + r)[1..] == r; }
      } else {
        assert RStrip(s) == [s[0]] + r;
      }
    }
  }

  /** Stripping one end first makes no difference to the stripped line. */
  lemma {:induction false} StripAbsorbs(s: string)
    ensures Strip(RStrip(s)) == Strip(s) && Strip(LStrip(s)) == Strip(s)
  {
    RStripIdempotent(s);
    RStripAfterLStrip(s);
    LStripIdempotent(RStrip(s));
  }

  /** A text no strip changes at its end, or at its start. */
  ghost predicate EndsTrimmed(t: Text) {
    t == [] || (!Blank(t[|t| - 1]) && RStrip(t[|t| - 1]) == t[|t| - 1])
  }

  ghost predicate StartsTrimmed(t: Text) {
    t == [] || (!Blank(t[0]) && LStrip(t[0]) == t[0])
  }

  lemma {:induction false} TrimEndTrims(t: Text)
    ensures EndsTrimmed(TrimEnd(t))
  {
    if t != [] {
      TrimEndTrims(t[1..]);
      RStripIdempotent(t[0]);
      StripAbsorbs(t[0]);
    }
  }

  lemma {:induction false} TrimEndKeeps(t: Text)
    requires EndsTrimmed(t)
    ensures TrimEnd(t) == t
  {
    if |t| > 1 {
      TrimEndKeeps(t[1..]);
    } else if |t| == 1 {
      assert TrimEnd(t[1..]) == [];
    }
  }

  lemma {:induction false} TrimStartTrims(t: Text)
    ensures StartsTrimmed(TrimStart(t))
    ensures EndsTrimmed(t) ==> EndsTrimmed(TrimStart(t))
  {
    if t != [] {
      if Blank(t[0]) {
        TrimStartTrims(t[1..]);
        if EndsTrimmed(t) { assert |t| > 1; }
      } else {
        LStripIdempotent(t[0]);
        StripAbsorbs(t[0]);
        RStripAfterLStrip(t[0]);
      }
    }
  }

  lemma {:induction false} StripTextTrims(t: Text)
    ensures StartsTrimmed(StripText(t)) && EndsTrimmed(StripText(t))
  {
    TrimEndTrims(t);
    TrimStartTrims(TrimEnd(t));
  }

  lemma {:induction false} StripTextKeeps(t: Text)
    requires StartsTrimmed(t) && EndsTrimmed(t)
    ensures StripText(t) == t
  {
    TrimEndKeeps(t);
    if t != [] { assert t == [t[0]] + t[1..]; }
  }

  // ---- Sections ----

  predicate IsHeading(line: string) { "## " <= Strip(line) }

  predicate IsHead(line: string, name: string) { Strip(line) == "## " + name }

  lemma {:induction false} OneName(line: string, p: string, q: string)
    requires IsHead(line, p) && p != q
    ensures !IsHead(line, q)
  {
    assert ("## " + p)[3..] == p && ("## " + q)[3..] == q;
  }

  /** The lines up to the next heading, and what follows them. */
  function Body(t: Text): Text {
    if t == [] || IsHeading(t[0]) then [] else [t[0]] + Body(t[1..])
  }

  function Rest(t: Text): (r: Text)
    ensures |r| <= |t|
  {
    if t == [] || IsHeading(t[0]) then t else Rest(t[1..])
  }

  /** The body of the first section called `name`. */
  function Section(t: Text, name: string): Text {
    if t == [] then [] else if IsHead(t[0], name) then Body(t[1..]) else Section(t[1..], name)
  }

  predicate HasSection(t: Text, name: string) {
    t != [] && (IsHead(t[0], name) || HasSection(t[1..], name))
  }

  /** The text with the body of every section called `name` exchanged. */
  function Rewritten(t: Text, name: string, lines: Text): Text
    decreases |t|
  {
    if t == [] then []
    else if IsHead(t[0], name) then [t[0]] + lines + Rewritten(Rest(t[1..]), name, lines)
    else [t[0]] + Rewritten(t[1..], name, lines)
  }

  ghost predicate NoHeadings(t: Text) {
    forall i :: 0 <= i < |t| ==> !IsHeading(t[i])
  }

  lemma {:induction false} BodyStops(a: Text, b: Text)
    requires NoHeadings(a) && (b == [] || IsHeading(b[0]))
    ensures Body(a + b) == a && Rest(a + b) == b
  {
    if a == [] {
      assert a + b == b;
    } else {
      assert (a + b)[1..] == a[1..] + b;
      BodyStops(a[1..], b);
    }
  }

  lemma {:induction false} RestStartsAtHeading(t: Text)
    ensures Rest(t) == [] || IsHeading(Rest(t)[0])
    ensures t == Body(t) + Rest(t) && NoHeadings(Body(t))
  {
    if t != [] && !IsHeading(t[0]) { RestStartsAtHeading(t[1..]); }
  }

  lemma {:induction false} RewrittenHead(t: Text, name: string, lines: Text)
    ensures t == [] <==> Rewritten(t, name, lines) == []
    ensures t != [] ==> Rewritten(t, name, lines)[0] == t[0]
  {
  }

  lemma {:induction false} RewrittenAppend(a: Text, t: Text, name: string, lines: Text)
    requires forall i :: 0 <= i < |a| ==> !IsHead(a[i], name)
    ensures Rewritten(a + t, name, lines) == a + Rewritten(t, name, lines)
  {
    if a == [] {
      assert a + t == t;
    } else {
      assert (a + t)[0] == a[0] && (a + t)[1..] == a[1..] + t;
      RewrittenAppend(a[1..], t, name, lines);
    }
  }

  /** Reading back what was written, and everything else unchanged. */
  lemma {:induction false} RewrittenSections(t: Text, name: string, lines: Text, other: string)
    requires NoHeadings(lines)
    ensures Section(Rewritten(t, name, lines), other) ==
            if other == name && HasSection(t, name) then lines else Section(t, other)
    decreases |t|
  {
    var u := Rewritten(t, name, lines);
    if t != [] {
      if IsHead(t[0], name) {
        var rest := Rest(t[1..]);
        RestStartsAtHeading(t[1..]);
        RewrittenHead(rest, name, lines);
        var v := Rewritten(rest, name, lines);
        assert u == [t[0]] + (lines + v) && u[1..] == lines + v;
        BodyStops(lines, v);
        if other != name {
          OneName(t[0], name, other);
          SectionSkips(lines, v, other);
          SectionSkips(Body(t[1..]), rest, other);
          RewrittenSections(rest, name, lines, other);
        }
      } else {
        assert u[1..] == Rewritten(t[1..], name, lines);
        RewrittenSections(t[1..], name, lines, other);
        if IsHead(t[0], other) {
          RewrittenBody(t[1..], name, lines);
        }
      }
    }
  }

  lemma {:induction false} SectionSkips(a: Text, t: Text, name: string)
    requires NoHeadings(a)
    ensures Section(a + t, name) == Section(t, name)
  {
    if a == [] {
      assert a + t == t;
    } else {
      assert (a + t)[1..] == a[1..] + t;
      SectionSkips(a[1..], t, name);
    }
  }

  /** The text up to the next heading is not touched. */
  lemma {:induction false} RewrittenBody(t: Text, name: string, lines: Text)
    ensures Body(Rewritten(t, name, lines)) == Body(t)
    ensures Rest(Rewritten(t, name, lines)) == Rewritten(Rest(t), name, lines)
  {
    if t != [] {
      if IsHeading(t[0]) {
        RewrittenHead(t, name, lines);
      } else {
        assert Rewritten(t, name, lines)[1..] == Rewritten(t[1..], name, lines);
        RewrittenBody(t[1..], name, lines);
      }
    }
  }

  lemma {:induction false} RewriteTwice(t: Text, name: string, lines: Text)
    requires NoHeadings(lines)
    ensures Rewritten(Rewritten(t, name, lines), name, lines) == Rewritten(t, name, lines)
    decreases |t|
  {
    if t != [] {
      var u := Rewritten(t, name, lines);
      if IsHead(t[0], name) {
        var rest := Rest(t[1..]);
        RestStartsAtHeading(t[1..]);
        RewrittenHead(rest, name, lines);
        var v := Rewritten(rest, name, lines);
        assert u == [t[0]] + (lines + v) && u[1..] == lines + v;
        BodyStops(lines, v);
        RewriteTwice(rest, name, lines);
      } else {
        assert u[1..] == Rewritten(t[1..], name, lines);
        RewriteTwice(t[1..], name, lines);
      }
    }
  }

  /** Rewriting two different sections commutes. */
  lemma {:induction false} RewritesCommute(t: Text, p: string, ps: Text, q: string, qs: Text)
    requires p != q && NoHeadings(ps) && NoHeadings(qs)
    ensures Rewritten(Rewritten(t, p, ps), q, qs) == Rewritten(Rewritten(t, q, qs), p, ps)
    decreases |t|
  {
    if t != [] {
      if IsHead(t[0], p) {
        RewriteAtHead(t, p, ps, q, qs);
        RewritesCommute(Rest(t[1..]), p, ps, q, qs);
      } else if IsHead(t[0], q) {
        RewriteAtHead(t, q, qs, p, ps);
        RewritesCommute(Rest(t[1..]), p, ps, q, qs);
      } else {
        assert Rewritten(t, p, ps)[1..] == Rewritten(t[1..], p, ps);
        assert Rewritten(t, q, qs)[1..] == Rewritten(t[1..], q, qs);
        RewritesCommute(t[1..], p, ps, q, qs);
      }
    }
  }

  lemma {:induction false} RewriteAtHead(t: Text, p: string, ps: Text, q: string, qs: Text)
    requires t != [] && p != q && IsHead(t[0], p) && NoHeadings(ps) && NoHeadings(qs)
    ensures var rest := Rest(t[1..]);
            && Rewritten(Rewritten(t, p, ps), q, qs) == [t[0]] + ps + Rewritten(Rewritten(rest, p, ps), q, qs)
            && Rewritten(Rewritten(t, q, qs), p, ps) == [t[0]] + ps + Rewritten(Rewritten(rest, q, qs), p, ps)
  {
    OneName(t[0], p, q);
    RewriteInner(t, p, ps, q, qs);
    RewriteOuter(t, p, ps, q, qs);
  }

  lemma {:induction false} RewriteInner(t: Text, p: string, ps: Text, q: string, qs: Text)
    requires t != [] && IsHead(t[0], p) && !IsHead(t[0], q) && NoHeadings(ps)
    ensures Rewritten(Rewritten(t, p, ps), q, qs)
            == [t[0]] + ps + Rewritten(Rewritten(Rest(t[1..]), p, ps), q, qs)
  {
    RewrittenAppend([t[0]] + ps, Rewritten(Rest(t[1..]), p, ps), q, qs);
  }

  lemma {:induction false} RewriteOuter(t: Text, p: string, ps: Text, q: string, qs: Text)
    requires t != [] && IsHead(t[0], p) && !IsHead(t[0], q)
    ensures Rewritten(Rewritten(t, q, qs), p, ps)
            == [t[0]] + ps + Rewritten(Rewritten(Rest(t[1..]), q, qs), p, ps)
  {
    var w := Rewritten(t, q, qs);
    assert w[0] == t[0] && w[1..] == Rewritten(t[1..], q, qs);
    RewrittenBody(t[1..], q, qs);
  }

  // ---- Reading and writing sections ----

  function Extract(t: Text, name: string): Text { StripText(Section(t, name)) }

  function Replace(t: Text, name: string, lines: Text): Text { TrimEnd(Rewritten(t, name, lines)) }

  lemma {:induction false} BodyTrim(t: Text)
    ensures TrimEnd(Body(TrimEnd(t))) == TrimEnd(Body(t))
  {
    if t != [] {
      var r := TrimEnd(t[1..]);
      BodyTrim(t[1..]);
      StripAbsorbs(t[0]);
      RStripIdempotent(t[0]);
      if r != [] {
        assert ([t[0]] + r)[1..] == r;
        assert ([t[0]] + Body(r))[1..] == Body(r);
      }
      assert ([t[0]] + Body(t[1..]))[1..] == Body(t[1..]);
    }
  }

  lemma {:induction false} SectionTrim(t: Text, name: string)
    ensures TrimEnd(Section(TrimEnd(t), name)) == TrimEnd(Section(t, name))
  {
    if t != [] {
      var r := TrimEnd(t[1..]);
      StripAbsorbs(t[0]);
      BodyTrim(t[1..]);
      SectionTrim(t[1..], name);
      if r != [] {
        assert ([t[0]] + r)[1..] == r;
      }
    }
  }

  /** A replaced section reads back as the new lines, and every other section reads as before. */
  lemma {:induction false} ReadBack(t: Text, name: string, lines: Text, other: string)
    requires NoHeadings(lines)
    ensures Extract(Replace(t, name, lines), other) ==
            if other == name && HasSection(t, name) then StripText(lines) else Extract(t, other)
  {
    RewrittenSections(t, name, lines, other);
    SectionTrim(Rewritten(t, name, lines), other);
  }

  /** The end of a joined text is the end of its last part. */
  lemma {:induction false} EndsTrimmedJoin(a: Text, b: Text)
    requires b != []
    ensures EndsTrimmed(a + b) <==> EndsTrimmed(b)
  {
    assert (a + b)[|a + b| - 1] == b[|b| - 1];
  }

  lemma {:induction false} RestTrimmed(t: Text)
    requires EndsTrimmed(t)
    ensures EndsTrimmed(Rest(t))
  {
    RestStartsAtHeading(t);
    if Rest(t) != [] { EndsTrimmedJoin(Body(t), Rest(t)); }
  }

  lemma {:induction false} RewrittenTrimmed(t: Text, name: string, lines: Text)
    requires EndsTrimmed(t) && EndsTrimmed(lines) && lines != []
    ensures EndsTrimmed(Rewritten(t, name, lines))
    decreases |t|
  {
    if t != [] {
      if IsHead(t[0], name) {
        RestTrimmed(t[1..]);
        RewrittenTrimmed(Rest(t[1..]), name, lines);
        TrimmedAfter([t[0]] + lines, Rewritten(Rest(t[1..]), name, lines));
      } else {
        RewrittenTrimmed(t[1..], name, lines);
        RewrittenHead(t[1..], name, lines);
        TrimmedAfter([t[0]], Rewritten(t[1..], name, lines));
      }
    }
  }

  lemma {:induction false} TrimmedAfter(a: Text, b: Text)
    requires EndsTrimmed(b) && (b == [] ==> EndsTrimmed(a))
    ensures EndsTrimmed(a + b)
  {
    if b == [] { assert a + b == a; } else { EndsTrimmedJoin(a, b); }
  }

  method ExtractSection(report: Text, heading: string) returns (r: Text)
    ensures r == Extract(report, heading)
  {
    var inSection, collected: Text := false, [];
    var i := 0;
    while i < |report|
      invariant 0 <= i <= |report|
      invariant Section(report, heading) ==
                if inSection then collected + Body(report[i..]) else Section(report[i..], heading)
      invariant !inSection ==> collected == []
    {
      if IsHeading(report[i]) {
        if inSection {
          break;
        }
        if IsHead(report[i], heading) {
          inSection := true;
          i := i + 1;
          continue;
        }
      }
      if inSection {
        collected := collected + [report[i]];
      }
      i := i + 1;
    }
    assert inSection ==> collected + Body(report[i..]) == collected;
    r := StripText(collected);
  }

  /** Midway through a rewrite: what is still to come completes `out` to the whole. */
  ghost predicate Copied(todo: Text, name: string, lines: Text, inTarget: bool, out: Text, whole: Text) {
    whole == out + Rewritten(if inTarget then Rest(todo) else todo, name, lines)
  }

  lemma {:induction false} CopyLine(t: Text, i: nat, name: string, lines: Text, inTarget: bool, out: Text, whole: Text)
    requires i < |t| && Copied(t[i..], name, lines, inTarget, out, whole)
    ensures var copy := !inTarget || IsHeading(t[i]);
            if copy && IsHead(t[i], name) then Copied(t[i + 1..], name, lines, true, out + [t[i]] + lines, whole)
            else if copy then Copied(t[i + 1..], name, lines, false, out + [t[i]], whole)
            else Copied(t[i + 1..], name, lines, true, out, whole)
  {
    assert t[i..][1..] == t[i + 1..];
    var rest := if IsHead(t[i], name) then Rest(t[i + 1..]) else t[i + 1..];
    var tail := Rewritten(rest, name, lines);
    assert out + ([t[i]] + lines + tail) == out + [t[i]] + lines + tail;
    assert out + ([t[i]] + tail) == out + [t[i]] + tail;
  }

  method ReplaceSection(report: Text, heading: string, newLines: Text) returns (r: Text)
    ensures r == Replace(report, heading, newLines)
  {
    var inTarget, out: Text := false, [];
    for i := 0 to |report|
      invariant Copied(report[i..], heading, newLines, inTarget, out, Rewritten(report, heading, newLines))
    {
      CopyLine(report, i, heading, newLines, inTarget, out, Rewritten(report, heading, newLines));
      if IsHeading(report[i]) {
        inTarget := false;
        if IsHead(report[i], heading) {
          out := out + [report[i]];
          out := out + newLines;
          inTarget := true;
          continue;
        }
      }
      if inTarget {
        continue;
      }
      out := out + [report[i]];
    }
    assert Rewritten(report, heading, newLines) == out;
    r := TrimEnd(out);
  }
}
