/**
 The evidence gate. It splits a file into reports, scores the evidence of each, rewrites the summary
 and severity of those with too little and writes the file back. A second pass over its own output
 must find nothing left to change.
 */
module EvidenceGate {
  import opened Common
  import opened ReportSections

  /** What the gate takes from regular expressions: the evidence score and the word characters. */
  datatype Scoring = Scoring(quality: Text -> nat, word: char -> bool)

  /** The scoring together with the lines the gate writes. */
  datatype Rules = Rules(score: Scoring, summary: Text, trivial: Text, minor: Text)

  function StandardRules(prefix: string, score: Scoring): Rules {
    Rules(score, SummaryNote(prefix), TRIVIAL, MINOR)
  }

  function Item(body: string): string { "- " + body }

  const NOTE := "Needs verification: missing file/line evidence"

  function SummaryNote(prefix: string): Text {
    ["", Item(NOTE + (if prefix == "" then "" else " " + prefix) + ".")]
  }

  const TRIVIAL: Text := ["", Item("Severity: trivial"), Item("Priority: P3")]

  const MINOR_NOTE := "Priority: P2" + (" (downgraded:" + " minimal evidence)")

  const MINOR: Text := ["", Item("Severity: minor"), Item(MINOR_NOTE)]

  /** `P0` or `P1` as a word of its own at position `k`. */
  predicate UrgentAt(s: string, k: nat, word: char -> bool) {
    && k + 1 < |s| && s[k] == 'P' && (s[k + 1] == '0' || s[k + 1] == '1')
    && (k == 0 || !word(s[k - 1]))
    && (k + 2 == |s| || !word(s[k + 2]))
  }

  predicate Urgent(t: Text, word: char -> bool) {
    exists i, k | 0 <= i < |t| && 0 <= k < |t[i]| :: UrgentAt(t[i], k, word)
  }

  datatype Verdict = Verdict(report: Text, gated: bool)

  function GateReport(t: Text, rules: Rules): Verdict {
    var quality := rules.score.quality(Extract(t, "Evidence"));
    if quality == 0 then
      Verdict(StripText(Replace(Replace(t, "Summary", rules.summary), "Severity", rules.trivial)), true)
    else if quality == 1 && Urgent(Extract(t, "Severity"), rules.score.word) then
      Verdict(StripText(Replace(t, "Severity", rules.minor)), true)
    else
      Verdict(StripText(t), quality == 1)
  }

  /** What the structured finding of a report is downgraded to. */
  datatype Rank = Rank(severity: string, priority: string)

  const TRIVIAL_RANK := Rank("trivial", "P3")
  const MINOR_RANK := Rank("minor", "P2")

  function Downgrade(t: Text, rules: Rules): Option<Rank> {
    var quality := rules.score.quality(Extract(t, "Evidence"));
    if quality == 0 then Some(TRIVIAL_RANK)
    else if quality == 1 && Urgent(Extract(t, "Severity"), rules.score.word) then Some(MINOR_RANK)
    else None
  }

  // ---- The lines the gate writes ----

  predicate IsSeparator(line: string) { Strip(line) == "---" }

  ghost predicate NoSeparator(t: Text) {
    forall i :: 0 <= i < |t| ==> !IsSeparator(t[i])
  }

  /** Lines that can stand in a section: no heading, no separator, and a clean last line. */
  ghost predicate SectionLines(t: Text) {
    t != [] && NoHeadings(t) && NoSeparator(t) && EndsTrimmed(t)
  }

  lemma {:induction false} RStripKeeps(s: string)
    requires s != [] && !IsSpace(s[|s| - 1])
    ensures RStrip(s) == s
  {
    if |s| > 1 { RStripKeeps(s[1..]); }
  }

  predicate IsBullet(s: string) {
    |s| >= 2 && s[0] == '-' && s[1] == ' ' && !IsSpace(s[|s| - 1])
  }

  /** A bullet line is neither a heading nor a separator, and stripping keeps it. */
  lemma {:induction false} Bullet(s: string)
    requires IsBullet(s)
    ensures Strip(s) == s && RStrip(s) == s && LStrip(s) == s && !IsHeading(s) && !IsSeparator(s)
  {
    RStripKeeps(s);
    assert "---"[1] == '-';
    assert "## "[0] == '#';
  }

  /** An empty line and then bullets. */
  ghost predicate IsList(t: Text) {
    |t| >= 2 && t[0] == "" && forall i :: 1 <= i < |t| ==> IsBullet(t[i])
  }

  lemma {:induction false} ListLines(t: Text)
    requires IsList(t)
    ensures SectionLines(t) && StripText(t) == t[1..]
  {
    forall i | 1 <= i < |t| ensures !IsHeading(t[i]) && !IsSeparator(t[i]) && Strip(t[i]) == t[i] == RStrip(t[i]) {
      Bullet(t[i]);
    }
    assert Strip("") == "";
    assert IsBullet(t[|t| - 1]);
    TrimEndKeeps(t);
    Bullet(t[1]);
    assert TrimStart(t) == TrimStart(t[1..]) == [t[1]] + t[1..][1..] == t[1..];
  }

  lemma {:induction false} ItemIsBullet(body: string)
    requires body != "" && !IsSpace(body[|body| - 1])
    ensures IsBullet(Item(body))
  {
    assert Item(body)[0] == '-' && Item(body)[1] == ' ';
  }

  lemma {:induction false} NoteIsList(prefix: string)
    ensures IsList(SummaryNote(prefix))
  {
    ItemIsBullet(NOTE + (if prefix == "" then "" else " " + prefix) + ".");
  }

  lemma {:induction false} TrivialIsList()
    ensures IsList(TRIVIAL)
  {
    ItemIsBullet("Severity: trivial");
    ItemIsBullet("Priority: P3");
  }

  lemma {:induction false} MinorIsList()
    ensures IsList(MINOR)
  {
    ItemIsBullet("Severity: minor");
    ItemIsBullet(MINOR_NOTE);
  }

  // ---- One report ----

  /** A report as splitting delivers it: stripped, not empty, no separator inside. */
  ghost predicate IsReport(t: Text) {
    t != [] && StartsTrimmed(t) && EndsTrimmed(t) && NoSeparator(t)
  }

  lemma {:induction false} RewrittenNoSeparator(t: Text, name: string, lines: Text)
    requires NoSeparator(t) && NoSeparator(lines)
    ensures NoSeparator(Rewritten(t, name, lines))
    decreases |t|
  {
    if t != [] {
      if IsHead(t[0], name) {
        RestNoSeparator(t[1..]);
        RewrittenNoSeparator(Rest(t[1..]), name, lines);
      } else {
        RewrittenNoSeparator(t[1..], name, lines);
      }
    }
  }

  lemma {:induction false} RestNoSeparator(t: Text)
    requires NoSeparator(t)
    ensures NoSeparator(Rest(t))
  {
    if t != [] && !IsHeading(t[0]) { RestNoSeparator(t[1..]); }
  }

  /** On a report, replacing a section is the bare rewrite: no strip changes anything. */
  lemma {:induction false} ReplaceInReport(t: Text, name: string, lines: Text)
    requires IsReport(t) && SectionLines(lines)
    ensures Replace(t, name, lines) == Rewritten(t, name, lines)
    ensures StripText(Rewritten(t, name, lines)) == Rewritten(t, name, lines)
    ensures IsReport(Rewritten(t, name, lines))
  {
    RewrittenHead(t, name, lines);
    RewrittenTrimmed(t, name, lines);
    RewrittenNoSeparator(t, name, lines);
    TrimEndKeeps(Rewritten(t, name, lines));
    StripTextKeeps(Rewritten(t, name, lines));
  }

  lemma {:induction false} SectionNeeded(t: Text, name: string)
    requires !HasSection(t, name)
    ensures Section(t, name) == []
  {
    if t != [] { SectionNeeded(t[1..], name); }
  }

  lemma {:induction false} MinorIsNotUrgent(word: char -> bool)
    ensures !Urgent(MINOR[1..], word)
  {
    DigitsNeeded("Severity: minor", word);
    MinorHasNoDigits();
    DigitsNeeded(MINOR_NOTE, word);
  }

  lemma {:induction false} MinorHasNoDigits()
    ensures '0' !in MINOR_NOTE && '1' !in MINOR_NOTE
  {
    assert '0' !in "Priority: P2" && '1' !in "Priority: P2";
    assert '0' !in " (downgraded:" && '1' !in " (downgraded:";
    assert '0' !in " minimal evidence)" && '1' !in " minimal evidence)";
  }

  /** A line without the digits 0 and 1 names neither priority. */
  lemma {:induction false} DigitsNeeded(body: string, word: char -> bool)
    requires '0' !in body && '1' !in body
    ensures forall k | 0 <= k < |Item(body)| :: !UrgentAt(Item(body), k, word)
  {
    assert '0' !in Item(body) && '1' !in Item(body);
    forall k | 0 <= k < |Item(body)| ensures !UrgentAt(Item(body), k, word) {
      if k + 1 < |Item(body)| { assert Item(body)[k + 1] in Item(body); }
    }
  }

  /** The gate's lines are lists, and its minor downgrade is not urgent. */
  ghost predicate Settling(rules: Rules) {
    && IsList(rules.summary) && IsList(rules.trivial) && IsList(rules.minor)
    && !Urgent(rules.minor[1..], rules.score.word)
  }

  lemma {:induction false} StandardRulesSettle(prefix: string, score: Scoring)
    ensures Settling(StandardRules(prefix, score))
  {
    NoteIsList(prefix);
    TrivialIsList();
    MinorIsList();
    MinorIsNotUrgent(score.word);
  }

  /** What the gate does to a report, section by section; all other sections read as before. */
  lemma {:induction false} GateEffect(t: Text, rules: Rules, name: string)
    requires IsReport(t) && Settling(rules)
    ensures var quality := rules.score.quality(Extract(t, "Evidence"));
            var downgraded := quality == 1 && Urgent(Extract(t, "Severity"), rules.score.word);
            var v := GateReport(t, rules);
            && IsReport(v.report)
            && (v.gated <==> quality <= 1)
            && Extract(v.report, name) ==
               if quality == 0 && name == "Summary" && HasSection(t, name) then rules.summary[1..]
               else if quality == 0 && name == "Severity" && HasSection(t, name) then rules.trivial[1..]
               else if downgraded && name == "Severity" then rules.minor[1..]
               else Extract(t, name)
  {
    var quality := rules.score.quality(Extract(t, "Evidence"));
    if quality == 0 {
      TwoSections(t, rules.summary, rules.trivial, name);
    } else if quality == 1 && Urgent(Extract(t, "Severity"), rules.score.word) {
      OneSection(t, rules.minor, name);
      if !HasSection(t, "Severity") { SectionNeeded(t, "Severity"); }
    } else {
      StripTextKeeps(t);
    }
  }

  lemma {:induction false} OneSection(t: Text, severity: Text, name: string)
    requires IsReport(t) && IsList(severity)
    ensures var u := StripText(Replace(t, "Severity", severity));
            && IsReport(u)
            && Extract(u, name) == if name == "Severity" && HasSection(t, name) then severity[1..] else Extract(t, name)
  {
    ListLines(severity);
    ReplaceInReport(t, "Severity", severity);
    ReadBack(t, "Severity", severity, name);
  }

  lemma {:induction false} TwoSections(t: Text, summary: Text, severity: Text, name: string)
    requires IsReport(t) && IsList(summary) && IsList(severity)
    ensures var u := StripText(Replace(Replace(t, "Summary", summary), "Severity", severity));
            && IsReport(u)
            && Extract(u, name) ==
               if name == "Summary" && HasSection(t, name) then summary[1..]
               else if name == "Severity" && HasSection(t, name) then severity[1..]
               else Extract(t, name)
  {
    var u := Rewritten(t, "Summary", summary);
    ListLines(summary);
    ReplaceInReport(t, "Summary", summary);
    ReadBack(t, "Summary", summary, name);
    HeadsStay(t, "Summary", summary, "Severity");
    OneSection(u, severity, name);
  }

  lemma {:induction false} HeadsStay(t: Text, name: string, lines: Text, other: string)
    requires NoHeadings(lines) && other != name
    ensures HasSection(Rewritten(t, name, lines), other) <==> HasSection(t, other)
    decreases |t|
  {
    if t != [] {
      var u := Rewritten(t, name, lines);
      if IsHead(t[0], name) {
        HeadsStay(Rest(t[1..]), name, lines, other);
        HeadsBehind(t, name, lines, other);
      } else {
        assert u[1..] == Rewritten(t[1..], name, lines);
        HeadsStay(t[1..], name, lines, other);
      }
    }
  }

  /** Behind a heading that is rewritten, only what follows its section has other headings. */
  lemma {:induction false} HeadsBehind(t: Text, name: string, lines: Text, other: string)
    requires NoHeadings(lines) && other != name && t != [] && IsHead(t[0], name)
    ensures HasSection(t, other) <==> HasSection(Rest(t[1..]), other)
    ensures HasSection(Rewritten(t, name, lines), other) <==>
            HasSection(Rewritten(Rest(t[1..]), name, lines), other)
  {
    OneName(t[0], name, other);
    RestStartsAtHeading(t[1..]);
    HeadsAfter(t[0], Body(t[1..]), Rest(t[1..]), other);
    assert t == [t[0]] + Body(t[1..]) + Rest(t[1..]);
    HeadsAfter(t[0], lines, Rewritten(Rest(t[1..]), name, lines), other);
  }

  lemma {:induction false} HeadsAfter(head: string, lines: Text, rest: Text, other: string)
    requires NoHeadings(lines) && !IsHead(head, other)
    ensures HasSection([head] + lines + rest, other) <==> HasSection(rest, other)
  {
    HeadsSkip(lines, rest, other);
    var t := [head] + lines + rest;
    assert t[0] == head && t[1..] == lines + rest;
  }

  lemma {:induction false} HeadsSkip(a: Text, t: Text, name: string)
    requires NoHeadings(a)
    ensures HasSection(a + t, name) <==> HasSection(t, name)
  {
    if a == [] {
      assert a + t == t;
    } else {
      assert (a + t)[1..] == a[1..] + t;
      HeadsSkip(a[1..], t, name);
    }
  }

  /** Gating a gated report changes nothing, and counts it the same. */
  lemma {:induction false} GateReportTwice(t: Text, rules: Rules)
    requires IsReport(t) && Settling(rules)
    ensures GateReport(GateReport(t, rules).report, rules) == GateReport(t, rules)
  {
    GateEffect(t, rules, "Evidence");
    GateEffect(t, rules, "Severity");
    StripTextKeeps(t);
    StripTextKeeps(GateReport(t, rules).report);
    if rules.score.quality(Extract(t, "Evidence")) == 0 { RewritesSettle(t, rules.summary, rules.trivial); }
  }

  lemma {:induction false} RewritesSettle(t: Text, summary: Text, severity: Text)
    requires IsReport(t) && IsList(summary) && IsList(severity)
    ensures var u := StripText(Replace(Replace(t, "Summary", summary), "Severity", severity));
            StripText(Replace(Replace(u, "Summary", summary), "Severity", severity)) == u
  {
    ListLines(summary);
    ListLines(severity);
    var v := Rewritten(t, "Summary", summary);
    var u := Rewritten(v, "Severity", severity);
    ReplaceInReport(t, "Summary", summary);
    ReplaceInReport(v, "Severity", severity);
    ReplaceInReport(u, "Summary", summary);
    RewritesCommute(v, "Summary", summary, "Severity", severity);
    RewriteTwice(t, "Summary", summary);
    ReplaceInReport(u, "Severity", severity);
    RewriteTwice(v, "Severity", severity);
  }

  // ---- The whole file ----

  /** The reports of a file, split at separator lines; `current` holds the lines since the last one. */
  function SplitFrom(current: Text, t: Text): seq<Text>
    decreases t
  {
    if t == [] then
      if current == [] then [] else [StripText(current)]
    else if IsSeparator(t[0]) then
      [StripText(current)] + SplitFrom([], t[1..])
    else
      SplitFrom(current + [t[0]], t[1..])
  }

  function NonEmpty(reports: seq<Text>): seq<Text> {
    if reports == [] then []
    else (if reports[0] == [] then [] else [reports[0]]) + NonEmpty(reports[1..])
  }

  function Reports(t: Text): seq<Text> { NonEmpty(SplitFrom([], t)) }

  function Join(reports: seq<Text>): Text {
    if reports == [] then [] else
    if |reports| == 1 then reports[0] else reports[0] + ["---"] + Join(reports[1..])
  }

  /** The file's lines: text of no line at all is written as one line end. */
  function FileOf(reports: seq<Text>): Text {
    var t := TrimEnd(Join(reports));
    if t == [] then [""] else t
  }

  function GateAll(reports: seq<Text>, rules: Rules): seq<Text> {
    if reports == [] then []
    else [GateReport(reports[0], rules).report] + GateAll(reports[1..], rules)
  }

  function CountGated(reports: seq<Text>, rules: Rules): nat {
    if reports == [] then 0
    else (if GateReport(reports[0], rules).gated then 1 else 0) + CountGated(reports[1..], rules)
  }

  function GateFile(t: Text, rules: Rules): Text {
    FileOf(GateAll(Reports(t), rules))
  }

  ghost predicate AllReports(rs: seq<Text>) {
    forall i :: 0 <= i < |rs| ==> IsReport(rs[i])
  }

  lemma {:induction false} TrimsKeepSeparators(t: Text)
    requires NoSeparator(t)
    ensures NoSeparator(TrimEnd(t)) && NoSeparator(TrimStart(t))
  {
    if t != [] {
      TrimsKeepSeparators(t[1..]);
      StripAbsorbs(t[0]);
    }
  }

  /** Splitting any file delivers reports. */
  lemma {:induction false} SplitGivesReports(current: Text, t: Text)
    requires NoSeparator(current)
    ensures AllReports(NonEmpty(SplitFrom(current, t)))
    decreases t
  {
    TrimsKeepSeparators(current);
    TrimsKeepSeparators(TrimEnd(current));
    StripTextTrims(current);
    if t != [] {
      if IsSeparator(t[0]) {
        SplitGivesReports([], t[1..]);
        assert ([StripText(current)] + SplitFrom([], t[1..]))[1..] == SplitFrom([], t[1..]);
      } else {
        SplitGivesReports(current + [t[0]], t[1..]);
      }
    }
  }

  lemma {:induction false} SplitSkips(current: Text, a: Text, t: Text)
    requires NoSeparator(a)
    ensures SplitFrom(current, a + t) == SplitFrom(current + a, t)
    decreases a
  {
    if a == [] {
      assert a + t == t && current + a == current;
    } else {
      assert (a + t)[0] == a[0] && (a + t)[1..] == a[1..] + t;
      SplitSkips(current + [a[0]], a[1..], t);
      assert current + [a[0]] + a[1..] == current + a;
    }
  }

  /** Splitting a joined list of reports gives the list back. */
  lemma {:induction false} SplitJoin(rs: seq<Text>)
    requires AllReports(rs)
    ensures Reports(Join(rs)) == rs
  {
    SplitJoined(rs);
    KeepAll(rs);
  }

  lemma {:induction false} SplitFirst(r: Text, t: Text)
    requires NoSeparator(r)
    ensures SplitFrom([], r + ["---"] + t) == [StripText(r)] + SplitFrom([], t)
  {
    var tail := ["---"] + t;
    assert r + ["---"] + t == r + tail && [] + r == r;
    SplitSkips([], r, tail);
    assert IsSeparator("---");
    assert tail[1..] == t;
  }

  lemma {:induction false} SplitJoined(rs: seq<Text>)
    requires AllReports(rs)
    ensures SplitFrom([], Join(rs)) == rs
  {
    if rs != [] {
      var r := rs[0];
      StripTextKeeps(r);
      if |rs| == 1 {
        SplitSkips([], r, []);
        assert r + [] == r && [] + r == r;
      } else {
        SplitFirst(r, Join(rs[1..]));
        SplitJoined(rs[1..]);
      }
    }
  }

  lemma {:induction false} KeepAll(rs: seq<Text>)
    requires AllReports(rs)
    ensures NonEmpty(rs) == rs
  {
    if rs != [] {
      assert IsReport(rs[0]);
      KeepAll(rs[1..]);
    }
  }

  lemma {:induction false} JoinTrimmed(rs: seq<Text>)
    requires AllReports(rs)
    ensures EndsTrimmed(Join(rs)) && (Join(rs) == [] <==> rs == [])
  {
    if |rs| > 1 {
      JoinTrimmed(rs[1..]);
      TrimmedAfter(rs[0] + ["---"], Join(rs[1..]));
    }
  }

  /** Reading back a file the gate wrote gives exactly the reports it wrote. */
  lemma {:induction false} FileRoundTrip(rs: seq<Text>)
    requires AllReports(rs)
    ensures Reports(FileOf(rs)) == rs
  {
    JoinTrimmed(rs);
    TrimEndKeeps(Join(rs));
    if rs == [] {
      assert Strip("") == "" && NoSeparator([""]);
      SplitSkips([], [""], []);
      assert [""] + [] == [] + [""] == [""];
    } else {
      SplitJoin(rs);
    }
  }

  lemma {:induction false} GateAllTwice(rs: seq<Text>, rules: Rules)
    requires AllReports(rs) && Settling(rules)
    ensures var gated := GateAll(rs, rules);
            && AllReports(gated)
            && GateAll(gated, rules) == gated
            && CountGated(gated, rules) == CountGated(rs, rules)
  {
    if rs != [] {
      GateAllTwice(rs[1..], rules);
      GateEffect(rs[0], rules, "Evidence");
      GateReportTwice(rs[0], rules);
      assert GateAll(rs, rules)[1..] == GateAll(rs[1..], rules);
    }
  }

  /** A second pass leaves the file as it is and counts the same reports. */
  lemma {:induction false} GateFileTwice(t: Text, prefix: string, score: Scoring)
    ensures var rules := StandardRules(prefix, score);
            var once := GateFile(t, rules);
            && GateFile(once, rules) == once
            && CountGated(Reports(once), rules) == CountGated(Reports(t), rules)
  {
    StandardRulesSettle(prefix, score);
    RulesSettle(t, StandardRules(prefix, score));
  }

  lemma {:induction false} RulesSettle(t: Text, rules: Rules)
    requires Settling(rules)
    ensures var once := GateFile(t, rules);
            && GateFile(once, rules) == once
            && CountGated(Reports(once), rules) == CountGated(Reports(t), rules)
  {
    SplitGivesReports([], t);
    GateAllTwice(Reports(t), rules);
    FileRoundTrip(GateAll(Reports(t), rules));
  }

  // ---- The gate itself ----

  method SplitReports(text: Text) returns (reports: seq<Text>)
    ensures reports == SplitFrom([], text)
  {
    reports := [];
    var current: Text := [];
    for i := 0 to |text|
      invariant SplitFrom([], text) == reports + SplitFrom(current, text[i..])
    {
      assert text[i..][1..] == text[i + 1..];
      if IsSeparator(text[i]) {
        reports := reports + [StripText(current)];
        current := [];
        continue;
      }
      current := current + [text[i]];
    }
    if current != [] {
      reports := reports + [StripText(current)];
    }
  }

  method GateOne(report: Text, rules: Rules) returns (r: Verdict, down: Option<Rank>)
    ensures r == GateReport(report, rules) && down == Downgrade(report, rules)
  {
    var gated, current := false, report;
    down := None;
    var evidence := ExtractSection(report, "Evidence");
    var quality := rules.score.quality(evidence);
    if quality == 0 {
      gated := true;
      down := Some(TRIVIAL_RANK);
      current := ReplaceSection(current, "Summary", rules.summary);
      current := ReplaceSection(current, "Severity", rules.trivial);
    } else if quality == 1 {
      gated := true;
      var severity := ExtractSection(current, "Severity");
      if Urgent(severity, rules.score.word) {
        current := ReplaceSection(current, "Severity", rules.minor);
        down := Some(MINOR_RANK);
      }
    }
    r := Verdict(StripText(current), gated);
  }

  /** The downgrades of the findings, each with the position of its report. */
  function DownList(reports: seq<Text>, rules: Rules): seq<(nat, Rank)> {
    if reports == [] then []
    else
      var n := |reports| - 1;
      var down := Downgrade(reports[n], rules);
      DownList(reports[..n], rules) + if down.Some? then [(n, down.value)] else []
  }

  method GateReports(reports: seq<Text>, rules: Rules)
    returns (newReports: seq<Text>, gatedCount: nat, downs: seq<(nat, Rank)>)
    ensures newReports == GateAll(NonEmpty(reports), rules)
    ensures gatedCount == CountGated(NonEmpty(reports), rules)
    ensures downs == DownList(NonEmpty(reports), rules)
  {
    gatedCount, newReports, downs := 0, [], [];
    ghost var kept: seq<Text> := [];
    for i := 0 to |reports|
      invariant NonEmpty(reports) == kept + NonEmpty(reports[i..])
      invariant newReports == GateAll(kept, rules) && |newReports| == |kept|
      invariant gatedCount == CountGated(kept, rules)
      invariant downs == DownList(kept, rules)
    {
      NextReport(reports, i, kept);
      if reports[i] == [] {
        continue;
      }
      GateAppend(kept, reports[i], rules);
      var verdict, down := GateOne(reports[i], rules);
      if down.Some? {
        downs := downs + [(|newReports|, down.value)];
      }
      gatedCount := gatedCount + (if verdict.gated then 1 else 0);
      newReports := newReports + [verdict.report];
      kept := kept + [reports[i]];
    }
    assert kept == NonEmpty(reports);
  }

  lemma {:induction false} NextReport(reports: seq<Text>, i: nat, kept: seq<Text>)
    requires i < |reports| && NonEmpty(reports) == kept + NonEmpty(reports[i..])
    ensures var r := reports[i];
            NonEmpty(reports) == (if r == [] then kept else kept + [r]) + NonEmpty(reports[i + 1..])
  {
    var rest := NonEmpty(reports[i + 1..]);
    assert reports[i..][1..] == reports[i + 1..];
    assert [] + rest == rest;
    assert kept + ([reports[i]] + rest) == kept + [reports[i]] + rest;
  }

  lemma {:induction false} GateAppend(rs: seq<Text>, r: Text, rules: Rules)
    ensures var v := GateReport(r, rules);
            && GateAll(rs + [r], rules) == GateAll(rs, rules) + [v.report]
            && CountGated(rs + [r], rules) == CountGated(rs, rules) + (if v.gated then 1 else 0)
    ensures var down := Downgrade(r, rules);
            DownList(rs + [r], rules) == DownList(rs, rules) + if down.Some? then [(|rs|, down.value)] else []
  {
    assert (rs + [r])[..|rs|] == rs;
    if rs == [] {
      assert rs + [r] == [r];
    } else {
      assert (rs + [r])[1..] == rs[1..] + [r];
      GateAppend(rs[1..], r, rules);
    }
  }

  // ---- The structured findings beside the file ----

  /** A finding; one that is no object is `None`, and `rest` is all the gate does not touch. */
  datatype Finding = Finding(rank: Rank, rest: string)

  type Findings = seq<Option<Finding>>

  /** The rank the last downgrade of a position gives it. */
  function RankAt(downs: seq<(nat, Rank)>, i: nat): Option<Rank> {
    if downs == [] then None
    else if downs[|downs| - 1].0 == i then Some(downs[|downs| - 1].1)
    else RankAt(downs[..|downs| - 1], i)
  }

  lemma {:induction false} RankOfReport(reports: seq<Text>, rules: Rules, i: nat)
    ensures RankAt(DownList(reports, rules), i) == if i < |reports| then Downgrade(reports[i], rules) else None
  {
    if reports != [] {
      var n := |reports| - 1;
      RankOfReport(reports[..n], rules, i);
      DownsInRange(reports[..n], rules);
      RankMore(DownList(reports[..n], rules), n, Downgrade(reports[n], rules), i);
    }
  }

  /** One more entry, for a position the list does not mention. */
  lemma {:induction false} RankMore(downs: seq<(nat, Rank)>, n: nat, down: Option<Rank>, i: nat)
    requires forall k :: 0 <= k < |downs| ==> downs[k].0 < n
    ensures RankAt(downs + (if down.Some? then [(n, down.value)] else []), i) == if i == n
        then down else RankAt(downs, i)
  {
    NoRank(downs, n);
    if down.Some? {
      var more := downs + [(n, down.value)];
      assert more[..|more| - 1] == downs;
    } else {
      assert downs + [] == downs;
    }
  }

  lemma {:induction false} NoRank(downs: seq<(nat, Rank)>, n: nat)
    requires forall k :: 0 <= k < |downs| ==> downs[k].0 < n
    ensures RankAt(downs, n) == None
  {
    if downs != [] { NoRank(downs[..|downs| - 1], n); }
  }

  lemma {:induction false} DownsInRange(reports: seq<Text>, rules: Rules)
    ensures forall k :: 0 <= k < |DownList(reports, rules)| ==> DownList(reports, rules)[k].0 < |reports|
  {
    if reports != [] { DownsInRange(reports[..|reports| - 1], rules); }
  }

  function Reranked(f: Option<Finding>, rank: Option<Rank>): Option<Finding> {
    if f.Some? && rank.Some? then Some(f.value.(rank := rank.value)) else f
  }

  /** Writes the downgrades into the findings, in order. */
  method RerankFindings(findings: Findings, downs: seq<(nat, Rank)>) returns (r: Result<Findings, string>)
    ensures r.Ok? <==> forall i :: 0 <= i < |findings| && RankAt(downs, i).Some? ==> findings[i].Some?
    ensures r.Ok? ==> |r.value| == |findings| &&
                      forall i :: 0 <= i < |findings| ==> r.value[i] == Reranked(findings[i], RankAt(downs, i))
  {
    var current := findings;
    for k := 0 to |downs|
      invariant |current| == |findings|
      invariant forall i :: 0 <= i < |findings| ==> current[i] == Reranked(findings[i], RankAt(downs[..k], i))
      invariant forall i :: 0 <= i < |findings| && RankAt(downs[..k], i).Some? ==> findings[i].Some?
    {
      var (at, rank) := downs[k];
      forall i: nat | i < |findings|
        ensures RankAt(downs[..k + 1], i) == if at == i then Some(rank) else RankAt(downs[..k], i)
      {
        RankNext(downs, k, i);
      }
      if at >= |findings| {
        continue;
      }
      if current[at].None? {
        RankStays(downs, k + 1, at);
        return Err("Structured finding must be an object");
      }
      current := current[at := Some(current[at].value.(rank := rank))];
    }
    assert downs[..|downs|] == downs;
    return Ok(current);
  }

  lemma {:induction false} RankNext(downs: seq<(nat, Rank)>, k: nat, i: nat)
    requires k < |downs|
    ensures RankAt(downs[..k + 1], i) == if downs[k].0 == i then Some(downs[k].1) else RankAt(downs[..k], i)
  {
    var next := downs[..k + 1];
    assert next[..|next| - 1] == downs[..k] && next[|next| - 1] == downs[k];
  }

  lemma {:induction false} RankStays(downs: seq<(nat, Rank)>, k: nat, i: nat)
    requires k <= |downs| && RankAt(downs[..k], i).Some?
    ensures RankAt(downs, i).Some?
    decreases |downs| - k
  {
    if k == |downs| {
      assert downs[..k] == downs;
    } else {
      RankNext(downs, k, i);
      RankStays(downs, k + 1, i);
    }
  }

  /** The findings are those of the reports: each holds the rank of its report's downgrade, if there was one. */
  ghost predicate Aligned(before: Findings, after: Findings, reports: seq<Text>, rules: Rules) {
    |after| == |before| &&
    forall i :: 0 <= i < |before| ==>
      after[i] == Reranked(before[i], if i < |reports| then Downgrade(reports[i], rules) else None)
  }

  /** A gated report asks for no other rank than the one its finding was given. */
  lemma {:induction false} DowngradeSettles(t: Text, rules: Rules)
    requires IsReport(t) && Settling(rules)
    ensures var again := Downgrade(GateReport(t, rules).report, rules); again.None? || again == Downgrade(t, rules)
  {
    GateEffect(t, rules, "Evidence");
    GateEffect(t, rules, "Severity");
  }

  /** A second pass over its own output leaves the findings as they are. */
  lemma {:induction false} FindingsSettle(
    before: Findings, after: Findings, again: Findings, reports: seq<Text>, rules: Rules)
    requires AllReports(reports) && Settling(rules)
    requires Aligned(before, after, reports, rules) && Aligned(after, again, GateAll(reports, rules), rules)
    ensures again == after
  {
    forall i | 0 <= i < |after| ensures again[i] == after[i] {
      if i < |reports| {
        GateAllAt(reports, rules, i);
        DowngradeSettles(reports[i], rules);
      } else {
        GateAllAt(reports, rules, 0);
      }
    }
  }

  lemma {:induction false} GateAllAt(reports: seq<Text>, rules: Rules, i: nat)
    ensures |GateAll(reports, rules)| == |reports|
    ensures i < |reports| ==> GateAll(reports, rules)[i] == GateReport(reports[i], rules).report
  {
    if reports != [] { GateAllAt(reports[1..], rules, if i > 0 then i - 1 else 0); }
  }

  /** Some report calls for a downgrade that its finding, which is no object, cannot take. */
  ghost predicate Obstructed(findings: Findings, reports: seq<Text>, rules: Rules) {
    exists i :: 0 <= i < |findings| && findings[i].None? && i < |reports| && Downgrade(reports[i], rules).Some?
  }

  /** What one pass over a file and its findings writes. */
  ghost predicate IsPass(text: Text, findings: Findings, rules: Rules, newText: Text, gatedCount: nat,
                         sidecar: Result<Findings, string>) {
    && newText == GateFile(text, rules)
    && gatedCount == CountGated(Reports(text), rules)
    && (sidecar.Err? <==> Obstructed(findings, Reports(text), rules))
    && (sidecar.Ok? ==> Aligned(findings, sidecar.value, Reports(text), rules))
  }

  method ApplyEvidenceGate(text: Text, prefix: string, score: Scoring, findings: Findings)
    returns (newText: Text, gatedCount: nat, sidecar: Result<Findings, string>)
    ensures IsPass(text, findings, StandardRules(prefix, score), newText, gatedCount, sidecar)
  {
    var rules := StandardRules(prefix, score);
    var reports := SplitReports(text);
    var newReports, downs;
    newReports, gatedCount, downs := GateReports(reports, rules);
    newText := FileOf(newReports);
    sidecar := RerankFindings(findings, downs);
    forall i: nat ensures RankAt(downs, i) == if i < |Reports(text)| then Downgrade(Reports(text)[i], rules) else None {
      RankOfReport(Reports(text), rules, i);
    }
  }

  /** The reports of a written file are the gated ones. */
  lemma {:induction false} ReportsAfter(text: Text, rules: Rules)
    requires Settling(rules)
    ensures AllReports(Reports(text)) && Reports(GateFile(text, rules)) == GateAll(Reports(text), rules)
  {
    SplitGivesReports([], text);
    GateAllTwice(Reports(text), rules);
    FileRoundTrip(GateAll(Reports(text), rules));
  }

  /**
   A second pass over what the first one wrote changes neither file nor findings, meets no obstacle
   and counts the same reports.
   */
  lemma {:induction false} PassTwice(
    text: Text, findings: Findings, prefix: string, score: Scoring, once: Text, count: nat, after: Findings,
    twice: Text, recount: nat, again: Result<Findings, string>)
    requires IsPass(text, findings, StandardRules(prefix, score), once, count, Ok(after))
    requires IsPass(once, after, StandardRules(prefix, score), twice, recount, again)
    ensures twice == once && recount == count && again == Ok(after)
  {
    var rules := StandardRules(prefix, score);
    GateFileTwice(text, prefix, score);
    StandardRulesSettle(prefix, score);
    ReportsAfter(text, rules);
    NothingInTheWay(findings, after, Reports(text), rules);
    FindingsSettle(findings, after, again.value, Reports(text), rules);
  }

  lemma {:induction false} NothingInTheWay(findings: Findings, after: Findings, reports: seq<Text>, rules: Rules)
    requires AllReports(reports) && Settling(rules)
    requires !Obstructed(findings, reports, rules) && Aligned(findings, after, reports, rules)
    ensures !Obstructed(after, GateAll(reports, rules), rules)
  {
    GateAllAt(reports, rules, 0);
    forall i | 0 <= i < |after| && after[i].None? && i < |reports|
      ensures Downgrade(GateAll(reports, rules)[i], rules).None?
    {
      GateAllAt(reports, rules, i);
      DowngradeSettles(reports[i], rules);
      assert findings[i].None?;
    }
  }
}
