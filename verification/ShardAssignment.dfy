/**
 Longest-estimated-first assignment of tests to shards: a deterministic schedule that depends only
 on which tests there are, uses every shard, and is within Graham's factor of any other schedule.
 */
module ShardAssignment {
  import opened Common
  import opened Sorting

  /** Why a request for shards or evidence is refused. */
  datatype Refusal =
    | BadAssignment | BadShard | BadPartition | BadCase | BadProofShard | RepeatedIds | WrongCases | WrongRole
    | BadExit | NotOpen | MixedEvidence | NotTheCase

  datatype Profile = Profile(defaultMs: nat, weightsMs: map<string, nat>, sha256: string)

  /** What loading a profile guarantees: all estimates are positive. */
  ghost predicate Positive(p: Profile) {
    p.defaultMs >= 1 && forall id :: id in p.weightsMs ==> p.weightsMs[id] >= 1
  }

  function Weight(p: Profile, id: string): nat {
    if id in p.weightsMs then p.weightsMs[id] else p.defaultMs
  }

  /** The sort key `(-weight, id)`. */
  function LongestFirst(p: Profile): (string, string) -> bool {
    (a, b) => if Weight(p, a) != Weight(p, b) then Weight(p, a) > Weight(p, b) else StringLe(a, b)
  }

  lemma {:induction false} LongestFirstOrder(p: Profile)
    ensures TotalOrder(LongestFirst(p))
  {
    StringOrder();
  }

  // ---- Schedules: `place[j]` is the shard of job `j`, of weight `ws[j]` ----

  /** The load on shard `i` from the first `k` jobs. */
  function Load(place: seq<nat>, ws: seq<nat>, k: nat, i: nat): nat
    requires k <= |place| == |ws|
  {
    if k == 0 then 0 else Load(place, ws, k - 1, i) + (if place[k - 1] == i then ws[k - 1] else 0)
  }

  ghost predicate Schedule(place: seq<nat>, ws: seq<nat>, m: nat) {
    |place| == |ws| && forall j :: 0 <= j < |place| ==> place[j] < m
  }

  /** Shard `s` carries the least load from the first `k` jobs; ties go to the lowest index. */
  ghost predicate Least(place: seq<nat>, ws: seq<nat>, k: nat, m: nat, s: nat)
    requires k <= |place| == |ws|
  {
    && s < m
    && (forall i: nat :: i < m ==> Load(place, ws, k, s) <= Load(place, ws, k, i))
    && (forall i: nat :: i < s ==> Load(place, ws, k, s) < Load(place, ws, k, i))
  }

  /** Every job went to the shard that was least loaded when its turn came. */
  ghost predicate Greedy(place: seq<nat>, ws: seq<nat>, m: nat) {
    |place| == |ws| && forall k :: 0 <= k < |place| ==> Least(place, ws, k, m, place[k])
  }

  /** No shard carries more than `bound` from the first `k` jobs. */
  ghost predicate Within(place: seq<nat>, ws: seq<nat>, k: nat, m: nat, bound: nat)
    requires k <= |place| == |ws|
  {
    forall i: nat :: i < m ==> Load(place, ws, k, i) <= bound
  }

  ghost predicate Descending(ws: seq<nat>) {
    forall i, j :: 0 <= i < j < |ws| ==> ws[i] >= ws[j]
  }

  lemma {:induction false} LoadAgrees(p: seq<nat>, q: seq<nat>, vs: seq<nat>, ws: seq<nat>, k: nat, i: nat)
    requires k <= |p| == |vs| && k <= |q| == |ws| && p[..k] == q[..k] && vs[..k] == ws[..k]
    ensures Load(p, vs, k, i) == Load(q, ws, k, i)
  {
    if k > 0 {
      assert p[..k - 1] == p[..k][..k - 1] && q[..k - 1] == q[..k][..k - 1];
      assert vs[..k - 1] == vs[..k][..k - 1] && ws[..k - 1] == ws[..k][..k - 1];
      assert p[k - 1] == p[..k][k - 1] && q[k - 1] == q[..k][k - 1];
      assert vs[k - 1] == vs[..k][k - 1] && ws[k - 1] == ws[..k][k - 1];
      LoadAgrees(p, q, vs, ws, k - 1, i);
    }
  }

  /** The greedy schedule is unique. */
  lemma {:induction false} GreedyUnique(p: seq<nat>, q: seq<nat>, ws: seq<nat>, m: nat, k: nat)
    requires Greedy(p, ws, m) && Greedy(q, ws, m) && k <= |ws|
    ensures p[..k] == q[..k]
  {
    if k > 0 {
      GreedyUnique(p, q, ws, m, k - 1);
      var a, b := p[k - 1], q[k - 1];
      LoadAgrees(p, q, ws, ws, k - 1, a);
      LoadAgrees(p, q, ws, ws, k - 1, b);
      assert Least(p, ws, k - 1, m, a) && Least(q, ws, k - 1, m, b);
      assert p[..k] == p[..k - 1] + [p[k - 1]] && q[..k] == q[..k - 1] + [q[k - 1]];
    }
  }

  // ---- Adding loads up ----

  function Work(ws: seq<nat>, k: nat): nat
    requires k <= |ws|
  {
    if k == 0 then 0 else Work(ws, k - 1) + ws[k - 1]
  }

  /** The loads of the first `m` shards together. */
  function Together(place: seq<nat>, ws: seq<nat>, k: nat, m: nat): nat
    requires k <= |place| == |ws|
  {
    if m == 0 then 0 else Together(place, ws, k, m - 1) + Load(place, ws, k, m - 1)
  }

  lemma {:induction false} TogetherStep(place: seq<nat>, ws: seq<nat>, k: nat, m: nat)
    requires k < |place| == |ws|
    ensures Together(place, ws, k + 1, m) == Together(place, ws, k, m) + (if place[k] < m then ws[k] else 0)
  {
    if m > 0 { TogetherStep(place, ws, k, m - 1); }
  }

  lemma {:induction false} TogetherIsWork(place: seq<nat>, ws: seq<nat>, k: nat, m: nat)
    requires Schedule(place, ws, m) && k <= |ws|
    ensures Together(place, ws, k, m) == Work(ws, k)
  {
    if k == 0 {
      TogetherNothing(place, ws, m);
    } else {
      TogetherIsWork(place, ws, k - 1, m);
      TogetherStep(place, ws, k - 1, m);
    }
  }

  lemma {:induction false} TogetherNothing(place: seq<nat>, ws: seq<nat>, m: nat)
    requires |place| == |ws|
    ensures Together(place, ws, 0, m) == 0
  {
    if m > 0 { TogetherNothing(place, ws, m - 1); }
  }

  lemma {:induction false} TogetherAtLeast(place: seq<nat>, ws: seq<nat>, k: nat, m: nat, low: nat)
    requires k <= |place| == |ws| && forall i: nat :: i < m ==> low <= Load(place, ws, k, i)
    ensures m * low <= Together(place, ws, k, m)
  {
    if m > 0 {
      TogetherAtLeast(place, ws, k, m - 1, low);
      assert m * low == (m - 1) * low + low;
    }
  }

  lemma {:induction false} TogetherAtMost(place: seq<nat>, ws: seq<nat>, k: nat, m: nat, high: nat)
    requires k <= |place| == |ws| && Within(place, ws, k, m, high)
    ensures Together(place, ws, k, m) <= m * high
  {
    if m > 0 {
      TogetherAtMost(place, ws, k, m - 1, high);
      assert m * high == (m - 1) * high + high;
    }
  }

  lemma {:induction false} LoadGrows(place: seq<nat>, ws: seq<nat>, k: nat, n: nat, i: nat)
    requires k <= n <= |place| == |ws|
    ensures Load(place, ws, k, i) <= Load(place, ws, n, i)
    decreases n - k
  {
    if k < n { LoadGrows(place, ws, k + 1, n, i); }
  }

  lemma {:induction false} WithinEarlier(place: seq<nat>, ws: seq<nat>, k: nat, m: nat, bound: nat)
    requires k <= |place| == |ws| && Within(place, ws, |ws|, m, bound)
    ensures Within(place, ws, k, m, bound)
  {
    forall i: nat | i < m ensures Load(place, ws, k, i) <= bound { LoadGrows(place, ws, k, |ws|, i); }
  }

  lemma {:induction false} LoadHoldsJob(place: seq<nat>, ws: seq<nat>, k: nat, j: nat)
    requires j < k <= |place| == |ws|
    ensures Load(place, ws, k, place[j]) >= ws[j]
  {
    if j < k - 1 { LoadHoldsJob(place, ws, k - 1, j); }
  }

  lemma {:induction false} LoadHoldsTwo(place: seq<nat>, ws: seq<nat>, k: nat, i: nat, j: nat)
    requires i < k <= |place| == |ws| && j < k && i != j && place[i] == place[j]
    ensures Load(place, ws, k, place[i]) >= ws[i] + ws[j]
  {
    if i == k - 1 {
      LoadHoldsJob(place, ws, k - 1, j);
    } else if j == k - 1 {
      LoadHoldsJob(place, ws, k - 1, i);
    } else {
      LoadHoldsTwo(place, ws, k - 1, i, j);
    }
  }

  // ---- Counting jobs: a load with unit weights ----

  function Units(n: nat): (u: seq<nat>)
    ensures |u| == n
  {
    seq(n, _ => 1)
  }

  function Count(place: seq<nat>, k: nat, i: nat): nat
    requires k <= |place|
  {
    Load(place, Units(|place|), k, i)
  }

  lemma {:induction false} UnitWork(n: nat, k: nat)
    requires k <= n
    ensures Work(Units(n), k) == k
  {
    if k > 0 { UnitWork(n, k - 1); }
  }

  lemma {:induction false} CountBoundsLoad(place: seq<nat>, ws: seq<nat>, k: nat, i: nat, low: nat)
    requires k <= |place| == |ws| && forall j :: 0 <= j < k ==> low <= ws[j]
    ensures Count(place, k, i) * low <= Load(place, ws, k, i)
    ensures Count(place, k, i) == 0 ==> Load(place, ws, k, i) == 0
  {
    if k > 0 {
      CountBoundsLoad(place, ws, k - 1, i, low);
      var c := Count(place, k - 1, i);
      if place[k - 1] == i { assert (c + 1) * low == c * low + low; }
    }
  }

  ghost function Singles(place: seq<nat>, k: nat, m: nat): set<nat>
    requires k <= |place|
  {
    set i: nat | i < m && Count(place, k, i) == 1
  }

  lemma {:induction false} SinglesStep(place: seq<nat>, k: nat, m: nat)
    requires k <= |place| && m > 0
    ensures |Singles(place, k, m)| == |Singles(place, k, m - 1)| + (if Count(place, k, m - 1) == 1 then 1 else 0)
  {
    var before, after := Singles(place, k, m - 1), Singles(place, k, m);
    if Count(place, k, m - 1) == 1 {
      assert after == before + {m - 1};
    } else {
      assert after == before;
    }
  }

  lemma {:induction false} AllUsed(place: seq<nat>, k: nat, m: nat)
    requires k <= |place| && forall i: nat :: i < m ==> Count(place, k, i) >= 1
    ensures Together(place, Units(|place|), k, m) + |Singles(place, k, m)| >= 2 * m
  {
    if m > 0 {
      AllUsed(place, k, m - 1);
      SinglesStep(place, k, m);
    }
  }

  lemma {:induction false} AtMostPairs(place: seq<nat>, k: nat, m: nat)
    requires k <= |place| && forall i: nat :: i < m ==> Count(place, k, i) <= 2
    ensures Together(place, Units(|place|), k, m) + |Singles(place, k, m)| <= 2 * m
  {
    if m > 0 {
      AtMostPairs(place, k, m - 1);
      SinglesStep(place, k, m);
    }
  }

  /** Some job on a shard that has one. */
  ghost function JobOn(place: seq<nat>, k: nat, i: nat): (j: nat)
    requires k <= |place| && Count(place, k, i) >= 1
    ensures j < k && place[j] == i
  {
    if place[k - 1] == i then k - 1 else JobOn(place, k - 1, i)
  }

  lemma {:induction false} NoJob(place: seq<nat>, ws: seq<nat>, k: nat, i: nat)
    requires k <= |place| == |ws| && Count(place, k, i) == 0
    ensures Load(place, ws, k, i) == 0
    ensures forall j :: 0 <= j < k ==> place[j] != i
  {
    if k > 0 { NoJob(place, ws, k - 1, i); }
  }

  lemma {:induction false} LoneJob(place: seq<nat>, ws: seq<nat>, k: nat, j: nat)
    requires j < k <= |place| == |ws| && Count(place, k, place[j]) == 1
    ensures Load(place, ws, k, place[j]) == ws[j]
    ensures forall h :: 0 <= h < k && h != j ==> place[h] != place[j]
  {
    if j == k - 1 {
      NoJob(place, ws, k - 1, place[j]);
    } else {
      if place[k - 1] == place[j] {
        LoadHoldsTwo(place, Units(|place|), k, j, k - 1);
      }
      LoneJob(place, ws, k - 1, j);
    }
  }

  lemma {:induction false} CountOfLoneJob(place: seq<nat>, k: nat, j: nat)
    requires j < k <= |place| && forall h :: 0 <= h < k && h != j ==> place[h] != place[j]
    ensures Count(place, k, place[j]) == 1
  {
    if j == k - 1 {
      AbsentCount(place, k - 1, place[j]);
    } else {
      CountOfLoneJob(place, k - 1, j);
    }
  }

  lemma {:induction false} AbsentCount(place: seq<nat>, k: nat, i: nat)
    requires k <= |place| && forall h :: 0 <= h < k ==> place[h] != i
    ensures Count(place, k, i) == 0
  {
    if k > 0 { AbsentCount(place, k - 1, i); }
  }

  lemma {:induction false} InjectionSize(a: set<nat>, b: set<nat>, f: map<nat, nat>)
    requires f.Keys == a && forall x :: x in a ==> f[x] in b
    requires forall x, y :: x in a && y in a && f[x] == f[y] ==> x == y
    ensures |a| <= |b|
  {
    if a != {} {
      var x :| x in a;
      var g := map y | y in a - {x} :: f[y];
      assert g.Keys == a - {x};
      InjectionSize(a - {x}, b - {f[x]}, g);
    }
  }

  // ---- The bound ----

  /** A lone job on a shard that cannot take one more is alone in the rival schedule too. */
  lemma {:induction false} LoneJobStaysAlone(
    place: seq<nat>, rival: seq<nat>, ws: seq<nat>, m: nat, k: nat, opt: nat, j: nat)
    requires Schedule(place, ws, m) && Schedule(rival, ws, m) && j < k < |ws|
    requires forall h :: 0 <= h <= k ==> ws[k] <= ws[h]
    requires Within(rival, ws, k + 1, m, opt)
    requires Count(place, k, place[j]) == 1 && Load(place, ws, k, place[j]) + ws[k] > opt
    ensures Count(rival, k + 1, rival[j]) == 1
  {
    LoneJob(place, ws, k, j);
    forall h | 0 <= h < k + 1 && h != j ensures rival[h] != rival[j] {
      if rival[h] == rival[j] {
        LoadHoldsTwo(rival, ws, k + 1, j, h);
      }
    }
    CountOfLoneJob(rival, k + 1, j);
  }

  /** So the rival has no fewer lone jobs. */
  lemma {:induction false} LoneJobsStayAlone(
    place: seq<nat>, rival: seq<nat>, ws: seq<nat>, m: nat, k: nat, opt: nat)
    requires Schedule(place, ws, m) && Schedule(rival, ws, m) && k < |ws|
    requires forall j :: 0 <= j <= k ==> ws[k] <= ws[j]
    requires Within(rival, ws, k + 1, m, opt)
    requires forall i: nat :: i < m ==> Load(place, ws, k, i) + ws[k] > opt
    ensures |Singles(place, k, m)| <= |Singles(rival, k + 1, m)|
  {
    var a, b := Singles(place, k, m), Singles(rival, k + 1, m);
    forall i | i in a ensures rival[JobOn(place, k, i)] in b {
      LoneJobStaysAlone(place, rival, ws, m, k, opt, JobOn(place, k, i));
    }
    forall x, y | x in a && y in a && rival[JobOn(place, k, x)] == rival[JobOn(place, k, y)] ensures x == y {
      LoneJob(rival, ws, k + 1, JobOn(place, k, x));
    }
    InjectionSize(a, b, map i | i in a :: rival[JobOn(place, k, i)]);
  }

  lemma {:induction false} PairsAtMost(rival: seq<nat>, ws: seq<nat>, m: nat, n: nat, p: nat, opt: nat)
    requires n <= |rival| == |ws| && Within(rival, ws, n, m, opt)
    requires 3 * p > opt && forall j :: 0 <= j < n ==> p <= ws[j]
    ensures forall i: nat :: i < m ==> Count(rival, n, i) <= 2
  {
    forall i: nat | i < m ensures Count(rival, n, i) <= 2 {
      CountBoundsLoad(rival, ws, n, i, p);
      ThirdsArithmetic(Count(rival, n, i), p, opt);
    }
  }

  lemma {:induction false} ThirdsArithmetic(c: nat, p: nat, opt: nat)
    requires c * p <= opt < 3 * p
    ensures c <= 2
  {
    assert c <= 2 || (c - 3) * p >= 0;
  }

  /** A job longer than a third of the rival's makespan does not push the greedy schedule past it. */
  lemma {:induction false} LongJobFits(place: seq<nat>, rival: seq<nat>, ws: seq<nat>, m: nat, k: nat, opt: nat)
    requires Schedule(place, ws, m) && Schedule(rival, ws, m) && Descending(ws) && k < |ws|
    requires Least(place, ws, k, m, place[k])
    requires Within(rival, ws, k + 1, m, opt)
    requires 3 * ws[k] > opt
    ensures Load(place, ws, k, place[k]) + ws[k] <= opt
  {
    var low, p := Load(place, ws, k, place[k]), ws[k];
    if low + p > opt {
      LoadHoldsJob(rival, ws, k + 1, k);
      forall i: nat | i < m ensures Count(place, k, i) >= 1 {
        if Count(place, k, i) == 0 { NoJob(place, ws, k, i); }
      }
      PairsAtMost(rival, ws, m, k + 1, p, opt);
      AllUsed(place, k, m);
      AtMostPairs(rival, k + 1, m);
      LoneJobsStayAlone(place, rival, ws, m, k, opt);
      TogetherIsWork(place, Units(|ws|), k, m);
      TogetherIsWork(rival, Units(|ws|), k + 1, m);
      UnitWork(|ws|, k);
      UnitWork(|ws|, k + 1);
    }
  }

  /** A load within the bound of a rival whose makespan is `opt`. */
  ghost predicate Bounded(m: nat, load: nat, opt: nat) { 3 * m * load <= (4 * m - 1) * opt }

  lemma {:induction false} ShortJobArithmetic(m: nat, low: nat, p: nat, opt: nat)
    requires m >= 1 && m * low + p <= m * opt && 3 * p <= opt
    ensures Bounded(m, low + p, opt)
  {
    assert m * (low + p) == m * low + m * p;
    assert m * p == p + (m - 1) * p;
    assert m * (low + p) <= m * opt + (m - 1) * p;
    assert 3 * ((m - 1) * p) == (m - 1) * (3 * p) <= (m - 1) * opt;
    assert (4 * m - 1) * opt == 3 * (m * opt) + (m - 1) * opt;
    assert 3 * m * (low + p) == 3 * (m * (low + p));
  }

  lemma {:induction false} LongJobArithmetic(m: nat, load: nat, opt: nat)
    requires m >= 1 && load <= opt
    ensures Bounded(m, load, opt)
  {
    assert m * load <= m * opt;
    assert (4 * m - 1) * opt == 3 * (m * opt) + (m - 1) * opt;
    assert 3 * m * load == 3 * (m * load);
  }

  lemma {:induction false} JobWithinBound(place: seq<nat>, rival: seq<nat>, ws: seq<nat>, m: nat, k: nat, opt: nat)
    requires m >= 1 && Schedule(place, ws, m) && Schedule(rival, ws, m) && Descending(ws) && k < |ws|
    requires Least(place, ws, k, m, place[k])
    requires Within(rival, ws, |ws|, m, opt)
    ensures Bounded(m, Load(place, ws, k, place[k]) + ws[k], opt)
  {
    var low, p := Load(place, ws, k, place[k]), ws[k];
    WithinEarlier(rival, ws, k + 1, m, opt);
    if 3 * p <= opt {
      TogetherAtLeast(place, ws, k, m, low);
      TogetherIsWork(place, ws, k, m);
      TogetherIsWork(rival, ws, k + 1, m);
      TogetherAtMost(rival, ws, k + 1, m, opt);
      ShortJobArithmetic(m, low, p, opt);
    } else {
      LongJobFits(place, rival, ws, m, k, opt);
      LongJobArithmetic(m, low + p, opt);
    }
  }

  /** Graham: no shard of the longest-first schedule exceeds `4/3 - 1/(3m)` of any schedule's makespan. */
  lemma {:induction false} GrahamBound(place: seq<nat>, rival: seq<nat>, ws: seq<nat>, m: nat, opt: nat, k: nat, i: nat)
    requires m >= 1 && Greedy(place, ws, m) && Descending(ws) && Schedule(rival, ws, m)
    requires Within(rival, ws, |ws|, m, opt)
    requires k <= |ws| && i < m
    ensures Bounded(m, Load(place, ws, k, i), opt)
  {
    if k == 0 {
      LongJobArithmetic(m, 0, opt);
    } else {
      GrahamBound(place, rival, ws, m, opt, k - 1, i);
      if place[k - 1] == i {
        assert Least(place, ws, k - 1, m, place[k - 1]);
        JobWithinBound(place, rival, ws, m, k - 1, opt);
        assert Load(place, ws, k, i) == Load(place, ws, k - 1, i) + ws[k - 1];
      } else {
        assert Load(place, ws, k, i) == Load(place, ws, k - 1, i);
      }
    }
  }

  // ---- Every shard is used ----

  lemma {:induction false} UnusedForever(place: seq<nat>, ws: seq<nat>, k: nat, i: nat)
    requires k <= |place| == |ws| && forall j :: 0 <= j < k ==> place[j] != i
    ensures Load(place, ws, k, i) == 0
  {
    if k > 0 { UnusedForever(place, ws, k - 1, i); }
  }

  lemma {:induction false} DistinctFit(place: seq<nat>, avoid: nat, m: nat)
    requires avoid < m && forall j :: 0 <= j < |place| ==> place[j] < m && place[j] != avoid
    requires forall i, j :: 0 <= i < j < |place| ==> place[i] != place[j]
    ensures |place| < m
  {
    var f := map j | j in Range(|place|) :: place[j];
    InjectionSize(Range(|place|), Range(m) - {avoid}, f);
  }

  function Range(n: nat): (r: set<nat>)
    ensures |r| == n && forall i: nat :: i in r <==> i < n
  {
    if n == 0 then {} else Range(n - 1) + {n - 1}
  }

  /** With at least as many jobs as shards, and positive weights, no shard stays empty. */
  lemma {:induction false} EveryShardUsed(place: seq<nat>, ws: seq<nat>, m: nat, i: nat)
    requires Greedy(place, ws, m) && i < m <= |ws|
    requires forall j :: 0 <= j < |ws| ==> ws[j] >= 1
    ensures exists j :: 0 <= j < |place| && place[j] == i
  {
    if forall j :: 0 <= j < |place| ==> place[j] != i {
      forall g, h | 0 <= g < h < |place| ensures place[g] != place[h] {
        UnusedForever(place, ws, h, i);
        assert Least(place, ws, h, m, place[h]);
        if place[g] == place[h] { LoadHoldsJob(place, ws, h, g); }
      }
      forall j | 0 <= j < |place| ensures place[j] < m { assert Least(place, ws, j, m, place[j]); }
      DistinctFit(place, i, m);
    }
  }

  // ---- Assignments of test ids ----

  function Weights(ids: seq<string>, p: Profile): (ws: seq<nat>)
    ensures |ws| == |ids| && forall j :: 0 <= j < |ids| ==> ws[j] == Weight(p, ids[j])
  {
    seq(|ids|, j requires 0 <= j < |ids| => Weight(p, ids[j]))
  }

  function Places(ids: seq<string>, a: map<string, nat>): (place: seq<nat>)
    requires forall id :: id in ids ==> id in a
    ensures |place| == |ids| && forall j :: 0 <= j < |ids| ==> place[j] == a[ids[j]]
  {
    seq(|ids|, j requires 0 <= j < |ids| => a[ids[j]])
  }

  function Ordered(ids: seq<string>, p: Profile): seq<string> { Sort(ids, LongestFirst(p)) }

  /** `a` gives every test, taken longest first, to the shard that is least loaded at that point. */
  ghost predicate IsAssignment(ids: seq<string>, count: nat, p: Profile, a: map<string, nat>) {
    && (forall id :: id in a <==> id in ids)
    && (forall id :: id in Ordered(ids, p) ==> id in ids)
    && Greedy(Places(Ordered(ids, p), a), Weights(Ordered(ids, p), p), count)
  }

  /** An assignment is about the tests it is of, and no others. */
  lemma {:induction false} AssignmentDomain(ids: seq<string>, count: nat, p: Profile, a: map<string, nat>)
    requires IsAssignment(ids, count, p, a)
    ensures forall id :: id in a <==> id in ids
  {
  }

  lemma {:induction false} OrderedMembers(ids: seq<string>, p: Profile)
    ensures |Ordered(ids, p)| == |ids| && forall id :: id in Ordered(ids, p) <==> id in ids
  {
    SortKeepsElements(ids, LongestFirst(p));
    forall id ensures id in Ordered(ids, p) <==> id in ids {
      assert id in multiset(Ordered(ids, p)) <==> id in multiset(ids);
    }
  }

  lemma {:induction false} OrderedDescends(ids: seq<string>, p: Profile)
    ensures Descending(Weights(Ordered(ids, p), p))
  {
    LongestFirstOrder(p);
    SortSorts(ids, LongestFirst(p));
    var order := Ordered(ids, p);
    forall i, j | 0 <= i < j < |order| ensures Weight(p, order[i]) >= Weight(p, order[j]) {
      assert LongestFirst(p)(order[i], order[j]);
    }
  }

  /** The assignment depends on which tests there are, not on the order in which they were collected. */
  lemma {:induction false} AssignmentIgnoresOrder(
    ids: seq<string>, jds: seq<string>, count: nat, p: Profile, a: map<string, nat>, b: map<string, nat>)
    requires multiset(ids) == multiset(jds)
    requires IsAssignment(ids, count, p, a) && IsAssignment(jds, count, p, b)
    ensures a == b
  {
    LongestFirstOrder(p);
    SortComparesMultisets(ids, jds, LongestFirst(p));
    var order := Ordered(ids, p);
    OrderedMembers(ids, p);
    OrderedMembers(jds, p);
    GreedyUnique(Places(order, a), Places(order, b), Weights(order, p), count, |order|);
    forall id | id in ids ensures a[id] == b[id] {
      var j :| 0 <= j < |order| && order[j] == id;
      assert Places(order, a)[..|order|][j] == Places(order, b)[..|order|][j];
    }
    assert a.Keys == b.Keys;
  }

  /** No shard is empty when there are at least as many tests as shards. */
  lemma {:induction false} AssignmentUsesEveryShard(
    ids: seq<string>, count: nat, p: Profile, a: map<string, nat>, i: nat)
    requires Positive(p) && IsAssignment(ids, count, p, a) && i < count <= |ids|
    ensures exists id :: id in ids && a[id] == i
  {
    var order := Ordered(ids, p);
    OrderedMembers(ids, p);
    EveryShardUsed(Places(order, a), Weights(order, p), count, i);
    var j :| 0 <= j < |order| && Places(order, a)[j] == i;
    assert order[j] in order;
  }

  /** The estimated time of shard `i`. */
  ghost function ShardLoad(ids: seq<string>, a: map<string, nat>, p: Profile, i: nat): nat
    requires forall id :: id in ids ==> id in a
  {
    if ids == [] then 0
    else (if a[ids[0]] == i then Weight(p, ids[0]) else 0) + ShardLoad(ids[1..], a, p, i)
  }

  lemma {:induction false} ShardLoadSnoc(ids: seq<string>, id: string, a: map<string, nat>, p: Profile, i: nat)
    requires id in a && forall x :: x in ids ==> x in a
    ensures ShardLoad(ids + [id], a, p, i) == ShardLoad(ids, a, p, i) + (if a[id] == i then Weight(p, id) else 0)
  {
    if ids == [] {
      assert [] + [id] == [id];
    } else {
      assert (ids + [id])[1..] == ids[1..] + [id];
      ShardLoadSnoc(ids[1..], id, a, p, i);
    }
  }

  lemma {:induction false} ShardLoadIsLoad(ids: seq<string>, a: map<string, nat>, p: Profile, i: nat, k: nat)
    requires k <= |ids| && forall id :: id in ids ==> id in a
    ensures ShardLoad(ids[..k], a, p, i) == Load(Places(ids, a), Weights(ids, p), k, i)
  {
    if k > 0 {
      ShardLoadIsLoad(ids, a, p, i, k - 1);
      assert ids[..k] == ids[..k - 1] + [ids[k - 1]];
      ShardLoadSnoc(ids[..k - 1], ids[k - 1], a, p, i);
    }
  }

  lemma {:induction false} InsertLoad(x: string, ids: seq<string>, a: map<string, nat>, p: Profile, i: nat)
    requires x in a && forall id :: id in ids ==> id in a
    ensures forall id :: id in Insert(x, ids, LongestFirst(p)) ==> id in a
    ensures ShardLoad(Insert(x, ids, LongestFirst(p)), a, p, i) ==
            (if a[x] == i then Weight(p, x) else 0) + ShardLoad(ids, a, p, i)
  {
    if ids == [] {
    } else if LongestFirst(p)(x, ids[0]) {
      assert ([x] + ids)[1..] == ids;
    } else {
      InsertLoad(x, ids[1..], a, p, i);
      var tail := Insert(x, ids[1..], LongestFirst(p));
      assert ([ids[0]] + tail)[1..] == tail;
    }
  }

  lemma {:induction false} SortLoad(ids: seq<string>, a: map<string, nat>, p: Profile, i: nat)
    requires forall id :: id in ids ==> id in a
    ensures forall id :: id in Ordered(ids, p) ==> id in a
    ensures ShardLoad(Ordered(ids, p), a, p, i) == ShardLoad(ids, a, p, i)
  {
    if ids != [] {
      SortLoad(ids[1..], a, p, i);
      InsertLoad(ids[0], Ordered(ids[1..], p), a, p, i);
    }
  }

  lemma {:induction false} SortedLoadIsLoad(ids: seq<string>, a: map<string, nat>, p: Profile, i: nat)
    requires forall id :: id in ids ==> id in a
    ensures forall id :: id in Ordered(ids, p) ==> id in a
    ensures var order := Ordered(ids, p);
            Load(Places(order, a), Weights(order, p), |order|, i) == ShardLoad(ids, a, p, i)
  {
    var order := Ordered(ids, p);
    SortLoad(ids, a, p, i);
    ShardLoadIsLoad(order, a, p, i, |order|);
    assert order[..|order|] == order;
  }

  /** Against any rival assignment of the same tests to `count` shards, whatever its longest shard takes. */
  lemma {:induction false} AssignmentNearOptimal(
    ids: seq<string>, count: nat, p: Profile, a: map<string, nat>, rival: map<string, nat>, makespan: nat, i: nat)
    requires count >= 1 && IsAssignment(ids, count, p, a) && i < count
    requires forall id :: id in ids ==> id in rival && rival[id] < count
    requires forall s: nat :: s < count ==> ShardLoad(ids, rival, p, s) <= makespan
    ensures 3 * count * ShardLoad(ids, a, p, i) <= (4 * count - 1) * makespan
  {
    var order := Ordered(ids, p);
    OrderedMembers(ids, p);
    OrderedDescends(ids, p);
    var ws, place, other := Weights(order, p), Places(order, a), Places(order, rival);
    SortedLoadIsLoad(ids, a, p, i);
    forall s: nat | s < count ensures Load(other, ws, |ws|, s) <= makespan { SortedLoadIsLoad(ids, rival, p, s); }
    assert Schedule(other, ws, count);
    GrahamBound(place, other, ws, count, makespan, |ws|, i);
  }

  // ---- The assignment, as it is computed with a heap of (load, shard) pairs ----

  datatype Entry = Entry(load: nat, shard: nat)

  predicate EntryLe(a: Entry, b: Entry) { a.load < b.load || (a.load == b.load && a.shard <= b.shard) }

  lemma {:induction false} LeastEntry(heap: set<Entry>) returns (least: Entry)
    requires heap != {}
    ensures least in heap && forall e :: e in heap ==> EntryLe(least, e)
  {
    var x :| x in heap;
    if heap == {x} {
      least := x;
    } else {
      var y := LeastEntry(heap - {x});
      least := if EntryLe(x, y) then x else y;
      forall e | e in heap ensures EntryLe(least, e) {
        if e != x { assert e in heap - {x}; }
      }
    }
  }

  /** The heap keeps one entry per shard; what `heapq` stores is this set. */
  method HeapPop(heap: set<Entry>) returns (least: Entry, rest: set<Entry>)
    requires heap != {}
    ensures least in heap && (forall e :: e in heap ==> EntryLe(least, e)) && rest == heap - {least}
  {
    ghost var _ := LeastEntry(heap);
    least :| least in heap && forall e :: e in heap ==> EntryLe(least, e);
    rest := heap - {least};
  }

  ghost function Entries(place: seq<nat>, ws: seq<nat>, k: nat, m: nat): set<Entry>
    requires k <= |place| == |ws|
  {
    set i: nat | i < m :: Entry(Load(place, ws, k, i), i)
  }

  lemma {:induction false} GreedySnoc(place: seq<nat>, ws: seq<nat>, m: nat, s: nat)
    requires |place| < |ws| && Greedy(place, ws[..|place|], m)
    requires Least(place, ws[..|place|], |place|, m, s)
    ensures Greedy(place + [s], ws[..|place| + 1], m)
  {
    var n, next, us, vs := |place|, place + [s], ws[..|place|], ws[..|place| + 1];
    forall k: nat | k < |next| ensures Least(next, vs, k, m, next[k]) {
      assert next[..k] == place[..k] && vs[..k] == us[..k];
      forall i: nat ensures Load(next, vs, k, i) == Load(place, us, k, i) { LoadAgrees(next, place, vs, us, k, i); }
      if k < n { assert Least(place, us, k, m, place[k]); }
    }
  }

  lemma {:induction false} OrderedDistinct(ids: seq<string>, p: Profile)
    requires Distinct(ids)
    ensures Distinct(Ordered(ids, p))
  {
    var order := Ordered(ids, p);
    OrderedMembers(ids, p);
    Pigeonhole(ids);
    Pigeonhole(order);
    assert Elements(order) == Elements(ids);
  }

  /** The heap holds the loads of a greedy schedule of the first `|place|` jobs. */
  ghost predicate HeapHolds(heap: set<Entry>, place: seq<nat>, ws: seq<nat>, m: nat) {
    && |place| <= |ws|
    && Greedy(place, ws[..|place|], m)
    && heap == Entries(place, ws[..|place|], |place|, m)
  }

  function EmptyHeap(m: nat): set<Entry> { set i | i in Range(m) :: Entry(0, i) }

  lemma {:induction false} EmptyHeapHolds(ws: seq<nat>, m: nat)
    ensures HeapHolds(EmptyHeap(m), [], ws, m)
  {
    forall e: Entry ensures e in EmptyHeap(m) <==> e in Entries([], ws[..0], 0, m) {
      assert e in EmptyHeap(m) <==> e.shard in Range(m) && e == Entry(0, e.shard);
      assert e in Entries([], ws[..0], 0, m) <==> e.shard < m && e == Entry(Load([], ws[..0], 0, e.shard), e.shard);
    }
  }

  lemma {:induction false} HeapEntries(place: seq<nat>, ws: seq<nat>, m: nat, s: nat)
    requires |place| < |ws| && s < m
    ensures var k := |place|;
            var load := Load(place, ws[..k], k, s);
            Entries(place + [s], ws[..k + 1], k + 1, m) ==
            Entries(place, ws[..k], k, m) - {Entry(load, s)} + {Entry(load + ws[k], s)}
  {
    var k := |place|;
    var us, vs, place' := ws[..k], ws[..k + 1], place + [s];
    assert vs[..k] == us[..k] && place'[..k] == place[..k];
    var before, after := Entries(place, us, k, m), Entries(place', vs, k + 1, m);
    var load := Load(place, us, k, s);
    forall e: Entry ensures e in after <==> e in before - {Entry(load, s)} + {Entry(load + ws[k], s)} {
      LoadAgrees(place', place, vs, us, k, e.shard);
      assert e in after <==> e.shard < m && e == Entry(Load(place', vs, k + 1, e.shard), e.shard);
      assert e in before <==> e.shard < m && e == Entry(Load(place, us, k, e.shard), e.shard);
    }
  }

  /** Moving the top of the heap up by the next job's weight schedules that job greedily. */
  lemma {:induction false} HeapStep(heap: set<Entry>, place: seq<nat>, ws: seq<nat>, m: nat, least: Entry)
    requires HeapHolds(heap, place, ws, m) && |place| < |ws|
    requires least in heap && forall e :: e in heap ==> EntryLe(least, e)
    ensures HeapHolds(heap - {least} + {Entry(least.load + ws[|place|], least.shard)}, place + [least.shard], ws, m)
  {
    var us := ws[..|place|];
    forall i: nat | i < m ensures EntryLe(least, Entry(Load(place, us, |place|, i), i)) {
      assert Entry(Load(place, us, |place|, i), i) in heap;
    }
    assert Least(place, us, |place|, m, least.shard);
    GreedySnoc(place, ws, m, least.shard);
    HeapEntries(place, ws, m, least.shard);
  }

  /** The tests before position `k` are placed greedily and the heap knows their loads. */
  ghost predicate Underway(
    order: seq<string>, m: nat, ws: seq<nat>, k: nat, heap: set<Entry>, a: map<string, nat>, place: seq<nat>)
  {
    && k <= |order| == |ws| && |place| == k
    && HeapHolds(heap, place, ws, m)
    && Placed(order[..k], a, place)
  }

  method PlaceNext(
    order: seq<string>, ghost m: nat, ghost ws: seq<nat>, weight: nat, k: nat, heap: set<Entry>, a: map<string, nat>,
    ghost place: seq<nat>)
    returns (heap': set<Entry>, a': map<string, nat>, ghost place': seq<nat>)
    requires m >= 1 && Distinct(order) && k < |order| && Underway(order, m, ws, k, heap, a, place) && weight == ws[k]
    ensures Underway(order, m, ws, k + 1, heap', a', place')
  {
    HeapNonEmpty(heap, place, ws, m);
    var least, rest := HeapPop(heap);
    HeapStep(heap, place, ws, m, least);
    PlacedSnoc(order, k, a, place, least.shard);
    a' := a[order[k] := least.shard];
    heap' := rest + {Entry(least.load + weight, least.shard)};
    place' := place + [least.shard];
  }

  method PlaceAll(order: seq<string>, m: nat, p: Profile) returns (assignment: map<string, nat>)
    requires m >= 1 && Distinct(order)
    ensures forall id :: id in assignment <==> id in order
    ensures Greedy(Places(order, assignment), Weights(order, p), m)
  {
    var heap := EmptyHeap(m);
    assignment := map[];
    ghost var place: seq<nat> := [];
    ghost var ws := Weights(order, p);
    EmptyHeapHolds(ws, m);
    for k := 0 to |order|
      invariant Underway(order, m, ws, k, heap, assignment, place)
    {
      heap, assignment, place := PlaceNext(order, m, ws, Weight(p, order[k]), k, heap, assignment, place);
    }
    assert order[..|order|] == order;
    AllPlaced(heap, order, assignment, place, Weights(order, p), m);
  }

  lemma {:induction false} HeapNonEmpty(heap: set<Entry>, place: seq<nat>, ws: seq<nat>, m: nat)
    requires m >= 1 && HeapHolds(heap, place, ws, m)
    ensures heap != {}
  {
    assert Entry(Load(place, ws[..|place|], |place|, 0), 0) in heap;
  }

  lemma {:induction false} AllPlaced(
    heap: set<Entry>, order: seq<string>, a: map<string, nat>, place: seq<nat>, ws: seq<nat>, m: nat)
    requires HeapHolds(heap, place, ws, m) && Placed(order, a, place) && |ws| == |order|
    ensures Greedy(Places(order, a), ws, m)
  {
    assert ws[..|place|] == ws;
    assert place == Places(order, a);
  }

  ghost predicate Placed(ids: seq<string>, a: map<string, nat>, place: seq<nat>) {
    && |place| == |ids|
    && (forall id :: id in a <==> id in ids)
    && forall j :: 0 <= j < |ids| ==> a[ids[j]] == place[j]
  }

  lemma {:induction false} PlacedSnoc(order: seq<string>, k: nat, a: map<string, nat>, place: seq<nat>, shard: nat)
    requires k < |order| && Distinct(order) && Placed(order[..k], a, place)
    ensures Placed(order[..k + 1], a[order[k] := shard], place + [shard])
  {
    assert order[..k + 1] == order[..k] + [order[k]];
  }

  /** `ordinary_assignment` */
  method OrdinaryAssignment(ids: seq<string>, count: int, p: Profile) returns (r: Result<map<string, nat>, Refusal>)
    ensures r.Err? <==> count < 1 || !Distinct(ids)
    ensures r.Ok? ==> IsAssignment(ids, count, p, r.value)
  {
    Pigeonhole(ids);
    if count < 1 || |Elements(ids)| != |ids| {
      return Err(BadAssignment);
    }
    OrderedMembers(ids, p);
    OrderedDistinct(ids, p);
    var assignment := PlaceAll(Sort(ids, LongestFirst(p)), count, p);
    return Ok(assignment);
  }
}
