/** Python's `sorted`: a stable sort by a total preorder, and the orders it is used with here. */
module Sorting {

  ghost predicate Preorder<T(!new)>(le: (T, T) -> bool) {
    && (forall x, y :: le(x, y) || le(y, x))
    && (forall x, y, z :: le(x, y) && le(y, z) ==> le(x, z))
  }

  ghost predicate TotalOrder<T(!new)>(le: (T, T) -> bool) {
    Preorder(le) && forall x, y :: le(x, y) && le(y, x) ==> x == y
  }

  ghost predicate SortedBy<T>(s: seq<T>, le: (T, T) -> bool) {
    forall i, j :: 0 <= i < j < |s| ==> le(s[i], s[j])
  }

  function Insert<T>(x: T, s: seq<T>, le: (T, T) -> bool): seq<T> {
    if s == [] then [x]
    else if le(x, s[0]) then [x] + s
    else [s[0]] + Insert(x, s[1..], le)
  }

  /** Inserting from the right end puts an element before its equals: the sort is stable. */
  function Sort<T>(s: seq<T>, le: (T, T) -> bool): seq<T> {
    if s == [] then [] else Insert(s[0], Sort(s[1..], le), le)
  }

  /** The elements that compare equal to `x`, in the order in which they occur. */
  function Peers<T>(s: seq<T>, x: T, le: (T, T) -> bool): seq<T> {
    if s == [] then []
    else if le(x, s[0]) && le(s[0], x) then [s[0]] + Peers(s[1..], x, le)
    else Peers(s[1..], x, le)
  }

  lemma {:induction false} InsertKeepsElements<T>(x: T, s: seq<T>, le: (T, T) -> bool)
    ensures multiset(Insert(x, s, le)) == multiset(s) + multiset{x}
  {
    if s == [] {
    } else if le(x, s[0]) {
      assert [x] + s == Insert(x, s, le);
    } else {
      InsertKeepsElements(x, s[1..], le);
      assert s == [s[0]] + s[1..];
    }
  }

  lemma {:induction false} SortKeepsElements<T>(s: seq<T>, le: (T, T) -> bool)
    ensures multiset(Sort(s, le)) == multiset(s)
    ensures |Sort(s, le)| == |s|
  {
    if s != [] {
      SortKeepsElements(s[1..], le);
      InsertKeepsElements(s[0], Sort(s[1..], le), le);
      assert s == [s[0]] + s[1..];
    }
    assert |multiset(Sort(s, le))| == |multiset(s)|;
  }

  lemma {:induction false} InsertSorts<T(!new)>(x: T, s: seq<T>, le: (T, T) -> bool)
    requires Preorder(le) && SortedBy(s, le)
    ensures SortedBy(Insert(x, s, le), le)
  {
    if s != [] && !le(x, s[0]) {
      var tail := Insert(x, s[1..], le);
      InsertSorts(x, s[1..], le);
      InsertKeepsElements(x, s[1..], le);
      forall y | y in tail ensures le(s[0], y) {
        assert y in multiset(tail);
        assert y in multiset(s[1..]) + multiset{x};
        if y != x { assert y in s[1..]; }
      }
    }
  }

  lemma {:induction false} SortSorts<T(!new)>(s: seq<T>, le: (T, T) -> bool)
    requires Preorder(le)
    ensures SortedBy(Sort(s, le), le)
  {
    if s != [] {
      SortSorts(s[1..], le);
      InsertSorts(s[0], Sort(s[1..], le), le);
    }
  }

  lemma {:induction false} InsertPeers<T(!new)>(x: T, s: seq<T>, k: T, le: (T, T) -> bool)
    requires Preorder(le)
    ensures Peers(Insert(x, s, le), k, le) == Peers([x] + s, k, le)
  {
    assert ([x] + s)[1..] == s;
    if s != [] && !le(x, s[0]) {
      InsertPeers(x, s[1..], k, le);
      assert ([x] + s[1..])[1..] == s[1..];
      var r := [s[0]] + Insert(x, s[1..], le);
      assert r[1..] == Insert(x, s[1..], le);
    }
  }

  /** Stability: equal elements keep their order of occurrence. */
  lemma {:induction false} SortIsStable<T(!new)>(s: seq<T>, k: T, le: (T, T) -> bool)
    requires Preorder(le)
    ensures Peers(Sort(s, le), k, le) == Peers(s, k, le)
  {
    if s != [] {
      var tail := Sort(s[1..], le);
      SortIsStable(s[1..], k, le);
      InsertPeers(s[0], tail, k, le);
      assert ([s[0]] + tail)[1..] == tail;
    }
  }

  lemma {:induction false} PeersMembers<T(!new)>(s: seq<T>, k: T, le: (T, T) -> bool, x: T)
    ensures x in Peers(s, k, le) <==> x in s && le(x, k) && le(k, x)
  {
    if s != [] { PeersMembers(s[1..], k, le, x); }
  }

  ghost predicate SamePeers<T(!new)>(a: seq<T>, b: seq<T>, le: (T, T) -> bool) {
    forall k :: Peers(a, k, le) == Peers(b, k, le)
  }

  /** A sorted sequence is determined by its groups of equal elements. */
  lemma {:induction false} SortedIsUnique<T(!new)>(a: seq<T>, b: seq<T>, le: (T, T) -> bool)
    requires Preorder(le) && SortedBy(a, le) && SortedBy(b, le)
    requires SamePeers(a, b, le)
    ensures a == b
    decreases |a| + |b|
  {
    if a == [] || b == [] {
      var c := if a == [] then b else a;
      if c != [] {
        PeersMembers(a, c[0], le, c[0]);
        PeersMembers(b, c[0], le, c[0]);
        assert false;
      }
    } else {
      PeersMembers(a, a[0], le, a[0]);
      PeersMembers(b, a[0], le, a[0]);
      PeersMembers(a, b[0], le, b[0]);
      PeersMembers(b, b[0], le, b[0]);
      assert le(a[0], b[0]) && le(b[0], a[0]);
      assert a[0] == Peers(a, a[0], le)[0] == Peers(b, a[0], le)[0] == b[0];
      forall k ensures Peers(a[1..], k, le) == Peers(b[1..], k, le) {
        assert Peers(a, k, le) == Peers(b, k, le);
        if le(k, a[0]) && le(a[0], k) {
          assert Peers(a[1..], k, le) == Peers(a, k, le)[1..];
          assert Peers(b[1..], k, le) == Peers(b, k, le)[1..];
        }
      }
      SortedIsUnique(a[1..], b[1..], le);
      assert a == [a[0]] + a[1..] && b == [b[0]] + b[1..];
    }
  }

  /** Two lists sort to the same list exactly when their groups of equal elements agree in order. */
  lemma {:induction false} SortsAgree<T(!new)>(a: seq<T>, b: seq<T>, le: (T, T) -> bool)
    requires Preorder(le)
    ensures Sort(a, le) == Sort(b, le) <==> SamePeers(a, b, le)
  {
    forall k ensures Peers(Sort(a, le), k, le) == Peers(a, k, le) && Peers(Sort(b, le), k, le) == Peers(b, k, le) {
      SortIsStable(a, k, le);
      SortIsStable(b, k, le);
    }
    if SamePeers(a, b, le) {
      SortSorts(a, le);
      SortSorts(b, le);
      SortedIsUnique(Sort(a, le), Sort(b, le), le);
    }
  }

  lemma {:induction false} RepeatMore<T>(k: T, n: nat)
    ensures [k] + seq(n, _ => k) == seq(n + 1, _ => k)
  {
  }

  /** The group of an element that is equal only to itself is so many copies of it. */
  lemma {:induction false} LonelyPeers<T(!new)>(s: seq<T>, k: T, le: (T, T) -> bool)
    requires le(k, k)
    requires forall x :: le(x, k) && le(k, x) ==> x == k
    ensures Peers(s, k, le) == seq(multiset(s)[k], _ => k)
  {
    if s != [] {
      LonelyPeers(s[1..], k, le);
      assert s == [s[0]] + s[1..];
      var n := multiset(s[1..])[k];
      assert multiset(s)[k] == n + if s[0] == k then 1 else 0;
      RepeatMore(k, n);
    }
  }

  /** Under a total order `sorted` compares multisets. */
  lemma {:induction false} SortComparesMultisets<T(!new)>(a: seq<T>, b: seq<T>, le: (T, T) -> bool)
    requires TotalOrder(le)
    ensures Sort(a, le) == Sort(b, le) <==> multiset(a) == multiset(b)
  {
    SortKeepsElements(a, le);
    SortKeepsElements(b, le);
    SortsAgree(a, b, le);
    if multiset(a) == multiset(b) {
      forall k ensures Peers(a, k, le) == Peers(b, k, le) {
        LonelyPeers(a, k, le);
        LonelyPeers(b, k, le);
      }
    }
  }

  /** Lexicographic order on sequences: strings, and Python tuples of one length. */
  predicate LexLe<T(==)>(a: seq<T>, b: seq<T>, le: (T, T) -> bool) {
    if a == [] then true
    else if b == [] then false
    else if a[0] == b[0] then LexLe(a[1..], b[1..], le)
    else le(a[0], b[0])
  }

  lemma {:induction false} LexTotal<T(!new)>(a: seq<T>, b: seq<T>, le: (T, T) -> bool)
    requires TotalOrder(le)
    ensures LexLe(a, b, le) || LexLe(b, a, le)
    ensures LexLe(a, b, le) && LexLe(b, a, le) ==> a == b
  {
    if a != [] && b != [] && a[0] == b[0] {
      LexTotal(a[1..], b[1..], le);
      assert a == [a[0]] + a[1..] && b == [b[0]] + b[1..];
    }
  }

  lemma {:induction false} LexTransitive<T(!new)>(a: seq<T>, b: seq<T>, c: seq<T>, le: (T, T) -> bool)
    requires TotalOrder(le) && LexLe(a, b, le) && LexLe(b, c, le)
    ensures LexLe(a, c, le)
  {
    if a != [] && b != [] && c != [] && a[0] == b[0] == c[0] {
      LexTransitive(a[1..], b[1..], c[1..], le);
    }
  }

  predicate CharLe(a: char, b: char) { a <= b }

  predicate StringLe(a: string, b: string) { LexLe(a, b, CharLe) }

  lemma {:induction false} StringOrder()
    ensures TotalOrder(StringLe)
  {
    forall a: string, b: string ensures StringLe(a, b) || StringLe(b, a) {
      LexTotal(a, b, CharLe);
    }
    forall a: string, b: string | StringLe(a, b) && StringLe(b, a) ensures a == b {
      LexTotal(a, b, CharLe);
    }
    forall a: string, b: string, c: string | StringLe(a, b) && StringLe(b, c) ensures StringLe(a, c) {
      LexTransitive(a, b, c, CharLe);
    }
  }
}
