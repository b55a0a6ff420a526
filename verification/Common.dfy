/** Python's `None` and exceptions as values, and the facts about lists the modules share. */
module Common {
  datatype Option<+T> = None | Some(value: T)

  datatype Result<+T, +E> = Ok(value: T) | Err(error: E)

  ghost predicate Injective<A(!new), B(!new)>(f: A -> B) {
    forall x, y :: f(x) == f(y) ==> x == y
  }

  // ---- Distinct elements and the size of their set ----

  function Elements<T(==)>(s: seq<T>): set<T> { set x | x in s }

  ghost predicate Distinct<T(!new)>(s: seq<T>) {
    forall i, j :: 0 <= i < j < |s| ==> s[i] != s[j]
  }

  lemma {:induction false} ElementsSplit<T>(s: seq<T>)
    requires s != []
    ensures Elements(s) == Elements(s[..|s| - 1]) + {s[|s| - 1]}
  {
    assert s == s[..|s| - 1] + [s[|s| - 1]];
  }

  /** A list never has more elements than places, and as many exactly when none repeats. */
  lemma {:induction false} Pigeonhole<T(!new)>(s: seq<T>)
    ensures |Elements(s)| <= |s|
    ensures |Elements(s)| == |s| <==> Distinct(s)
  {
    if s != [] {
      var front := s[..|s| - 1];
      Pigeonhole(front);
      ElementsSplit(s);
      assert forall i :: 0 <= i < |front| ==> front[i] == s[i];
      if s[|s| - 1] in front {
        assert Elements(s) == Elements(front);
        var i :| 0 <= i < |front| && front[i] == s[|s| - 1];
        assert s[i] == s[|s| - 1];
      } else {
        assert Distinct(front) ==> Distinct(s);
        assert Distinct(s) ==> Distinct(front);
      }
    }
  }

  lemma {:induction false} CountOnce<T(!new)>(s: seq<T>, x: T)
    requires Distinct(s)
    ensures multiset(s)[x] == if x in s then 1 else 0
  {
    if s != [] {
      var front, last := s[..|s| - 1], s[|s| - 1];
      CountOnce(front, x);
      assert s == front + [last];
      assert last !in front;
    }
  }

  lemma {:induction false} DistinctMultiset<T(!new)>(s: seq<T>)
    requires Distinct(s)
    ensures multiset(s) == multiset(Elements(s))
  {
    forall x ensures multiset(s)[x] == multiset(Elements(s))[x] { CountOnce(s, x); }
  }

  /** `dict.fromkeys`: first occurrences, in order. */
  function Deduped<T(==, !new)>(xs: seq<T>): (ys: seq<T>)
    ensures forall x :: x in ys <==> x in xs
    ensures forall i, j :: 0 <= i < j < |ys| ==> ys[i] != ys[j]
  {
    if xs == [] then []
    else
      var last := xs[|xs| - 1];
      var init := Deduped(xs[..|xs| - 1]);
      if last in init then init else init + [last]
  }

  // ---- Filtering ----

  function Where<T>(s: seq<T>, keep: T -> bool): seq<T> {
    if s == [] then [] else (if keep(s[0]) then [s[0]] else []) + Where(s[1..], keep)
  }

  lemma {:induction false} WhereMembers<T(!new)>(s: seq<T>, keep: T -> bool, x: T)
    ensures x in Where(s, keep) <==> x in s && keep(x)
  {
    if s != [] { WhereMembers(s[1..], keep, x); }
  }

  lemma {:induction false} WhereCount<T(!new)>(s: seq<T>, keep: T -> bool, x: T)
    ensures multiset(Where(s, keep))[x] == if keep(x) then multiset(s)[x] else 0
  {
    if s != [] {
      WhereCount(s[1..], keep, x);
      assert s == [s[0]] + s[1..];
    }
  }

  lemma {:induction false} WhereEmpty<T(!new)>(s: seq<T>, keep: T -> bool)
    ensures Where(s, keep) == [] <==> forall x :: x in s ==> !keep(x)
  {
    if s != [] {
      WhereEmpty(s[1..], keep);
      assert forall x :: x in s <==> x == s[0] || x in s[1..];
    }
  }

  lemma {:induction false} WhereDistinct<T(!new)>(s: seq<T>, keep: T -> bool)
    requires Distinct(s)
    ensures Distinct(Where(s, keep))
  {
    if s != [] {
      WhereDistinct(s[1..], keep);
      WhereMembers(s[1..], keep, s[0]);
    }
  }
}
