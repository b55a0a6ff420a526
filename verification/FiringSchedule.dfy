/**
 One firing of a battery round: canaries, then the corpus repeat by repeat, until three instrument
 faults in a row.
 */
module FiringSchedule {
  import opened Common
  import opened Sorting
  import opened Exclusion

  const CANARY := "canary"
  const CANARY_N := 10

  /** What became of a run: the kind of its exclusion, or nothing. */
  type Verdict = Option<Kind>

  predicate IsInstrument(v: Verdict) { v.Some? && InstrumentKind(v.value) }

  /** `should_abort` */
  predicate ShouldAbort(verdicts: seq<Verdict>) {
    var n := |verdicts|;
    n >= 3 && IsInstrument(verdicts[n - 1]) && IsInstrument(verdicts[n - 2]) && IsInstrument(verdicts[n - 3])
  }

  datatype Slot = Slot(name: string, repeat: nat)

  datatype Run = Run(name: string, repeat: nat, excluded: Verdict)

  // ---- The schedule and where it stops ----

  function Round(names: seq<string>, rep: nat): seq<Slot> {
    seq(|names|, i requires 0 <= i < |names| => Slot(names[i], rep))
  }

  function Corpus(names: seq<string>, repeats: nat): seq<Slot> {
    if repeats == 0 then [] else Corpus(names, repeats - 1) + Round(names, repeats)
  }

  function Canaries(n: nat): seq<Slot> { seq(n, i requires 0 <= i < n => Slot(CANARY, i + 1)) }

  function Selected(names: seq<string>, only: Option<set<string>>): seq<string> {
    if names == [] then []
    else (if only.None? || names[0] in only.value then [names[0]] else []) + Selected(names[1..], only)
  }

  function WithoutCanary(names: seq<string>): seq<string> {
    if names == [] then [] else (if names[0] == CANARY then [] else [names[0]]) + WithoutCanary(names[1..])
  }

  function Schedule(names: seq<string>, only: Option<set<string>>, repeats: nat): seq<Slot> {
    var selected := Selected(names, only);
    (if CANARY in selected then Canaries(CANARY_N) else []) + Corpus(Sort(WithoutCanary(selected), StringLe), repeats)
  }

  /** The verdicts of runs `n - 3`, `n - 2` and `n - 1` of the schedule are all instrument faults. */
  ghost predicate StopsAfter(oracle: nat -> Verdict, n: nat) {
    n >= 3 && IsInstrument(oracle(n - 1)) && IsInstrument(oracle(n - 2)) && IsInstrument(oracle(n - 3))
  }

  /** The number of runs a firing of `total` slots makes. */
  ghost predicate FiredLength(oracle: nat -> Verdict, total: nat, n: nat) {
    && n <= total
    && (forall k: nat :: k < n ==> !StopsAfter(oracle, k))
    && (n < total ==> StopsAfter(oracle, n))
  }

  lemma {:induction false} FiredLengthUnique(oracle: nat -> Verdict, total: nat, m: nat, n: nat)
    requires FiredLength(oracle, total, m) && FiredLength(oracle, total, n)
    ensures m == n
  {
    assert m < n ==> !StopsAfter(oracle, m);
    assert n < m ==> !StopsAfter(oracle, n);
  }

  function Runs(slots: seq<Slot>, oracle: nat -> Verdict): (rs: seq<Run>)
    ensures |rs| == |slots|
  {
    seq(|slots|, i requires 0 <= i < |slots| => Run(slots[i].name, slots[i].repeat, oracle(i)))
  }

  class Battery {
    const repeats: nat
    var completed: seq<Run>
    var aborted: bool

    constructor (repeats: nat)
      ensures this.repeats == repeats && completed == [] && !aborted
    {
      this.repeats := repeats;
      completed, aborted := [], false;
    }

    /** The firing has made the first `|streak|` runs of the schedule and may go on. */
    ghost predicate Underway(schedule: seq<Slot>, oracle: nat -> Verdict, streak: seq<Verdict>, start: seq<Run>)
      reads this
    {
      && |streak| <= |schedule|
      && (forall i :: 0 <= i < |streak| ==> streak[i] == oracle(i))
      && (forall k: nat :: k <= |streak| ==> !StopsAfter(oracle, k))
      && completed == start + Runs(schedule[..|streak|], oracle)
    }

    /** The firing has stopped after `n` runs because the last three were instrument faults. */
    ghost predicate Stopped(schedule: seq<Slot>, oracle: nat -> Verdict, n: nat, start: seq<Run>)
      reads this
    {
      && FiredLength(oracle, |schedule|, n) && StopsAfter(oracle, n)
      && completed == start + Runs(schedule[..n], oracle)
    }

    /** One run, recorded and judged. */
    method RunOne(
      name: string, rep: nat, ghost schedule: seq<Slot>, oracle: nat -> Verdict, streak: seq<Verdict>,
      ghost start: seq<Run>)
      returns (next: seq<Verdict>, stop: bool)
      requires Underway(schedule, oracle, streak, start)
      requires |streak| < |schedule| && schedule[|streak|] == Slot(name, rep)
      modifies this
      ensures aborted == (old(aborted) || stop) && |next| == |streak| + 1
      ensures if stop then Stopped(schedule, oracle, |next|, start) else Underway(schedule, oracle, next, start)
    {
      var verdict := oracle(|streak|);
      completed := completed + [Run(name, rep, verdict)];
      next := streak + [verdict];
      assert Runs(schedule[..|next|], oracle) == Runs(schedule[..|streak|], oracle) + [Run(name, rep, verdict)];
      assert ShouldAbort(next) <==> StopsAfter(oracle, |next|);
      stop := ShouldAbort(next);
      if stop {
        aborted := true;
      }
    }

    method FireCanaries(ghost schedule: seq<Slot>, oracle: nat -> Verdict, ghost start: seq<Run>)
      returns (streak: seq<Verdict>, stop: bool)
      requires Underway(schedule, oracle, [], start) && Canaries(CANARY_N) <= schedule
      modifies this
      ensures aborted == (old(aborted) || stop)
      ensures if stop then Stopped(schedule, oracle, |streak|, start)
              else |streak| == CANARY_N && Underway(schedule, oracle, streak, start)
    {
      streak, stop := [], false;
      for rep := 1 to CANARY_N + 1
        invariant !stop && aborted == old(aborted) && |streak| == rep - 1 && Underway(schedule, oracle, streak, start)
      {
        assert schedule[rep - 1] == Canaries(CANARY_N)[rep - 1];
        streak, stop := RunOne(CANARY, rep, schedule, oracle, streak, start);
        if stop {
          return;
        }
      }
    }

    method FireRound(
      corpus: seq<string>, rep: nat, ghost schedule: seq<Slot>, oracle: nat -> Verdict, streak: seq<Verdict>,
      ghost start: seq<Run>)
      returns (next: seq<Verdict>, stop: bool)
      requires Underway(schedule, oracle, streak, start)
      requires schedule[..|streak|] + Round(corpus, rep) <= schedule
      modifies this
      ensures aborted == (old(aborted) || stop)
      ensures if stop then Stopped(schedule, oracle, |next|, start)
              else |next| == |streak| + |corpus| && Underway(schedule, oracle, next, start)
    {
      next, stop := streak, false;
      for i := 0 to |corpus|
        invariant !stop && aborted == old(aborted) && |next| == |streak| + i && Underway(schedule, oracle, next, start)
      {
        assert schedule[|streak| + i] == (schedule[..|streak|] + Round(corpus, rep))[|streak| + i];
        next, stop := RunOne(corpus[i], rep, schedule, oracle, next, start);
        if stop {
          return;
        }
      }
    }

    method FireCorpus(
      corpus: seq<string>, ghost canaries: seq<Slot>, oracle: nat -> Verdict, streak: seq<Verdict>,
      ghost start: seq<Run>)
      returns (next: seq<Verdict>, stop: bool)
      requires |streak| == |canaries|
      requires Underway(canaries + Corpus(corpus, repeats), oracle, streak, start)
      modifies this
      ensures aborted == (old(aborted) || stop)
      ensures var schedule := canaries + Corpus(corpus, repeats);
              if stop then Stopped(schedule, oracle, |next|, start)
              else |next| == |schedule| && Underway(schedule, oracle, next, start)
    {
      ghost var schedule := canaries + Corpus(corpus, repeats);
      next, stop := streak, false;
      for rep := 1 to repeats + 1
        invariant !stop && aborted == old(aborted) && Underway(schedule, oracle, next, start)
        invariant schedule[..|next|] == canaries + Corpus(corpus, rep - 1)
      {
        RoundFollows(schedule, canaries, corpus, |next|, rep, repeats);
        next, stop := FireRound(corpus, rep, schedule, oracle, next, start);
        if stop {
          return;
        }
      }
    }

    /** `fire`: run slot after slot; `oracle(n)` is the verdict of the n-th run, whatever decides it. */
    method Fire(names: seq<string>, only: Option<set<string>>, oracle: nat -> Verdict)
      modifies this
      ensures exists n: nat ::
                && FiredLength(oracle, |Schedule(names, only, repeats)|, n)
                && completed == old(completed) + Runs(Schedule(names, only, repeats)[..n], oracle)
                && aborted == (old(aborted) || StopsAfter(oracle, n))
    {
      ghost var start, schedule := completed, Schedule(names, only, repeats);
      var selected := Selected(names, only);
      var corpus := Sort(WithoutCanary(selected), StringLe);
      ghost var canaries := if CANARY in selected then Canaries(CANARY_N) else [];
      var streak: seq<Verdict>, stop := [], false;
      if CANARY in selected {
        streak, stop := FireCanaries(schedule, oracle, start);
        if stop {
          return;
        }
      }
      streak, stop := FireCorpus(corpus, canaries, oracle, streak, start);
      if !stop {
        assert FiredLength(oracle, |schedule|, |streak|);
      }
    }
  }

  /** After the earlier rounds comes this one, and then the schedule has run one round further. */
  lemma {:induction false} RoundFollows(
    schedule: seq<Slot>, canaries: seq<Slot>, names: seq<string>, done: nat, rep: nat, repeats: nat)
    requires 1 <= rep <= repeats && schedule == canaries + Corpus(names, repeats)
    requires done <= |schedule| && schedule[..done] == canaries + Corpus(names, rep - 1)
    ensures schedule[..done] + Round(names, rep) <= schedule
    ensures done + |names| <= |schedule| && schedule[..done + |names|] == canaries + Corpus(names, rep)
  {
    CorpusPrefix(canaries, names, rep, repeats);
    var more := schedule[..done] + Round(names, rep);
    assert more == schedule[..|more|];
    assert more == canaries + Corpus(names, rep);
  }

  lemma {:induction false} CorpusPrefix(canaries: seq<Slot>, names: seq<string>, rep: nat, repeats: nat)
    requires 1 <= rep <= repeats
    ensures canaries + Corpus(names, rep - 1) + Round(names, rep) <= canaries + Corpus(names, repeats)
    decreases repeats - rep
  {
    assert canaries + Corpus(names, rep - 1) + Round(names, rep) == canaries + Corpus(names, rep);
    if rep < repeats {
      CorpusPrefix(canaries, names, rep + 1, repeats);
    }
  }
}
