/** Sequence vocabulary shared by the other modules: duplicate-free sequences, filtering,
    counting and a stable descending sort. */
module Common {

  datatype Option<+T> = None | Some(value: T)

  type CandidateId = int
  type JobId = int

  ghost predicate NoDup<T>(s: seq<T>) {
    forall i, j :: 0 <= i < j < |s| ==> s[i] != s[j]
  }

  /** The elements of s that satisfy p, in the order of s. */
  function Filter<T(!new)>(s: seq<T>, p: T -> bool): (r: seq<T>)
    ensures |r| <= |s|
  {
    if s == [] then []
    else
      var rest := Filter(s[..|s| - 1], p);
      if p(s[|s| - 1]) then rest + [s[|s| - 1]] else rest
  }

  lemma {:induction false} FilterMembers<T(!new)>(s: seq<T>, p: T -> bool)
    ensures forall x :: x in Filter(s, p) <==> x in s && p(x)
  {
    if s != [] {
      FilterMembers(s[..|s| - 1], p);
    }
  }

  lemma FilterSnoc<T(!new)>(s: seq<T>, x: T, p: T -> bool)
    ensures Filter(s + [x], p) == if p(x) then Filter(s, p) + [x] else Filter(s, p)
  {
    assert (s + [x])[..|s|] == s;
  }

  function Map<S, T>(s: seq<S>, f: S -> T): (r: seq<T>)
    ensures |r| == |s|
    ensures forall i :: 0 <= i < |s| ==> r[i] == f(s[i])
  {
    if s == [] then [] else Map(s[..|s| - 1], f) + [f(s[|s| - 1])]
  }

  lemma MapConcat<S, T>(s: seq<S>, t: seq<S>, f: S -> T)
    ensures Map(s + t, f) == Map(s, f) + Map(t, f)
  {
  }

  lemma MapSnoc<S, T>(s: seq<S>, x: S, f: S -> T)
    ensures Map(s + [x], f) == Map(s, f) + [f(x)]
  {
    assert (s + [x])[..|s|] == s;
  }

  lemma MapPrefix<S, T>(s: seq<S>, n: nat, f: S -> T)
    requires n <= |s|
    ensures Map(s[..n], f) == Map(s, f)[..n]
  {
  }

  /** The number of positions of s whose element satisfies p. */
  function Count<T(!new)>(s: seq<T>, p: T -> bool): nat {
    |Filter(s, p)|
  }

  lemma {:induction false} FilterNoDup<T(!new)>(s: seq<T>, p: T -> bool)
    requires NoDup(s)
    ensures NoDup(Filter(s, p))
  {
    if s != [] {
      FilterNoDup(s[..|s| - 1], p);
      FilterMembers(s[..|s| - 1], p);
      assert s[|s| - 1] !in s[..|s| - 1];
    }
  }

  lemma {:induction false} FilterAgrees<T(!new)>(s: seq<T>, p: T -> bool, q: T -> bool)
    requires forall x :: x in s ==> p(x) == q(x)
    ensures Filter(s, p) == Filter(s, q)
  {
    if s != [] {
      FilterAgrees(s[..|s| - 1], p, q);
    }
  }

  /** If p is the disjoint union of q and r on s, the counts add up. */
  lemma {:induction false} CountSplits<T(!new)>(s: seq<T>, p: T -> bool, q: T -> bool, r: T -> bool)
    requires forall x :: x in s ==> (p(x) <==> q(x) || r(x)) && !(q(x) && r(x))
    ensures Count(s, p) == Count(s, q) + Count(s, r)
  {
    if s != [] {
      CountSplits(s[..|s| - 1], p, q, r);
      assert s[|s| - 1] in s;
    }
  }

  lemma CountZero<T(!new)>(s: seq<T>, p: T -> bool)
    ensures Count(s, p) == 0 <==> forall x :: x in s ==> !p(x)
  {
    FilterMembers(s, p);
    if Count(s, p) == 0 {
      assert Filter(s, p) == [];
      forall x | x in s ensures !p(x) {
        assert x !in Filter(s, p);
      }
    } else {
      assert Filter(s, p)[0] in Filter(s, p);
    }
  }

  lemma TakeOneMore<T>(s: seq<T>, i: nat)
    requires i < |s|
    ensures s[..i + 1] == s[..i] + [s[i]]
  {
  }

  lemma LastApart<T>(s: seq<T>)
    requires s != []
    ensures s == s[..|s| - 1] + [s[|s| - 1]]
  {
  }

  function ToSet<T(==)>(s: seq<T>): set<T> {
    set x | x in s
  }

  lemma SomeMembersIff<T>(s: seq<T>)
    ensures s != [] <==> ToSet(s) != {}
  {
    if s != [] {
      assert s[0] in ToSet(s);
    }
  }

  lemma SomeMember<T>(s: set<T>) returns (x: T)
    requires s != {}
    ensures x in s
  {
    x :| x in s;
  }

  lemma SomeKey<K, V>(m: map<K, V>, v: V) returns (k: K)
    requires v in m.Values
    ensures k in m && m[k] == v
  {
    k :| k in m && m[k] == v;
  }

  lemma {:induction false} NoDupCardinality<T(!new)>(s: seq<T>)
    requires NoDup(s)
    ensures |ToSet(s)| == |s|
  {
    if s != [] {
      var n := |s| - 1;
      NoDupCardinality(s[..n]);
      assert ToSet(s) == ToSet(s[..n]) + {s[n]};
      assert s[n] !in s[..n];
    }
  }

  /** Two duplicate-free sequences with the same members have the same length. */
  lemma SameMembersSameLength<T(!new)>(a: seq<T>, b: seq<T>)
    requires NoDup(a) && NoDup(b)
    requires forall x :: x in a <==> x in b
    ensures |a| == |b|
  {
    NoDupCardinality(a);
    NoDupCardinality(b);
    assert ToSet(a) == ToSet(b);
  }

  /** ... and are permutations of each other. */
  lemma SameMembersSameMultiset<T(!new)>(a: seq<T>, b: seq<T>)
    requires NoDup(a) && NoDup(b)
    requires forall x :: x in a <==> x in b
    ensures multiset(a) == multiset(b)
  {
    forall x ensures multiset(a)[x] == multiset(b)[x] {
      NoDupMultiplicity(a, x);
      NoDupMultiplicity(b, x);
    }
  }

  lemma {:induction false} NoDupMultiplicity<T(!new)>(a: seq<T>, x: T)
    requires NoDup(a)
    ensures multiset(a)[x] == if x in a then 1 else 0
  {
    if a != [] {
      var n := |a| - 1;
      assert a == a[..n] + [a[n]];
      NoDupMultiplicity(a[..n], x);
      assert a[n] !in a[..n];
    }
  }

  /** What passes, and how much of it, does not depend on the order. */
  lemma {:induction false} FilterMultiset<T(!new)>(s: seq<T>, t: seq<T>, p: T -> bool)
    requires multiset(s) == multiset(t)
    ensures multiset(Filter(s, p)) == multiset(Filter(t, p)) && |Filter(s, p)| == |Filter(t, p)|
  {
    forall x ensures multiset(Filter(s, p))[x] == multiset(Filter(t, p))[x] {
      FilterMultiplicity(s, p, x);
      FilterMultiplicity(t, p, x);
    }
    assert |multiset(Filter(s, p))| == |Filter(s, p)|;
  }

  lemma {:induction false} FilterMultiplicity<T(!new)>(s: seq<T>, p: T -> bool, x: T)
    ensures multiset(Filter(s, p))[x] == if p(x) then multiset(s)[x] else 0
  {
    if s != [] {
      var n := |s| - 1;
      assert s == s[..n] + [s[n]];
      FilterMultiplicity(s[..n], p, x);
    }
  }

  // ---------------------------------------------------------------- stable descending sort

  /** `outranks` compares like a strict order on some key: ties are elements neither of which outranks
      the other. */
  ghost predicate RanksByKey<T(!new)>(outranks: (T, T) -> bool) {
    && (forall a, b :: outranks(a, b) ==> !outranks(b, a))
    && (forall a, b, c :: outranks(a, c) ==> outranks(a, b) || outranks(b, c))
  }

  ghost predicate Descending<T>(s: seq<T>, outranks: (T, T) -> bool) {
    forall i, j :: 0 <= i < j < |s| ==> !outranks(s[j], s[i])
  }

  /** Where x goes into a descending s: behind the last element it does not outrank. */
  function SplitPoint<T(!new)>(s: seq<T>, x: T, outranks: (T, T) -> bool): (k: nat)
    ensures k <= |s|
    ensures k > 0 ==> !outranks(x, s[k - 1])
    ensures forall i :: k <= i < |s| ==> outranks(x, s[i])
  {
    if s == [] || !outranks(x, s[|s| - 1]) then |s| else SplitPoint(s[..|s| - 1], x, outranks)
  }

  function Insert<T(!new)>(s: seq<T>, x: T, outranks: (T, T) -> bool): (r: seq<T>)
    ensures multiset(r) == multiset(s) + multiset{x}
    ensures |r| == |s| + 1
  {
    var k := SplitPoint(s, x, outranks);
    assert s == s[..k] + s[k..];
    s[..k] + [x] + s[k..]
  }

  /** Python's stable sort with reverse=True: later elements go behind the earlier ones they tie with. */
  function SortDescending<T(!new)>(s: seq<T>, outranks: (T, T) -> bool): (r: seq<T>)
    ensures multiset(r) == multiset(s)
    ensures |r| == |s|
  {
    if s == [] then []
    else
      var n := |s| - 1;
      assert s == s[..n] + [s[n]];
      Insert(SortDescending(s[..n], outranks), s[n], outranks)
  }

  lemma InsertKeepsOrder<T(!new)>(s: seq<T>, x: T, outranks: (T, T) -> bool)
    requires RanksByKey(outranks) && Descending(s, outranks)
    ensures Descending(Insert(s, x, outranks), outranks)
  {
    var k := SplitPoint(s, x, outranks);
    FrontNotOutranked(s, x, outranks, k);
    InsertedAt(s, x, outranks, k);
  }

  /** Nothing before the split point is outranked by x: each outranks or ties with the element right before it. */
  lemma FrontNotOutranked<T(!new)>(s: seq<T>, x: T, outranks: (T, T) -> bool, k: nat)
    requires RanksByKey(outranks) && Descending(s, outranks)
    requires k <= |s| && (k > 0 ==> !outranks(x, s[k - 1]))
    ensures forall i :: 0 <= i < k ==> !outranks(x, s[i])
  {
    forall i | 0 <= i < k ensures !outranks(x, s[i]) {
      assert i < k - 1 ==> !outranks(s[k - 1], s[i]);
    }
  }

  lemma InsertedAt<T(!new)>(s: seq<T>, x: T, outranks: (T, T) -> bool, k: nat)
    requires Descending(s, outranks) && k <= |s|
    requires forall i :: 0 <= i < k ==> !outranks(x, s[i])
    requires forall i :: k <= i < |s| ==> !outranks(s[i], x)
    ensures Descending(s[..k] + [x] + s[k..], outranks)
  {
    var r := s[..k] + [x] + s[k..];
    forall i, j | 0 <= i < j < |r| ensures !outranks(r[j], r[i]) {
      var a, b := if i < k then i else i - 1, if j < k then j else j - 1;
      assert i != k ==> r[i] == s[a];
      assert j != k ==> r[j] == s[b];
    }
  }

  lemma {:induction false} SortIsDescending<T(!new)>(s: seq<T>, outranks: (T, T) -> bool)
    requires RanksByKey(outranks)
    ensures Descending(SortDescending(s, outranks), outranks)
  {
    if s != [] {
      SortIsDescending(s[..|s| - 1], outranks);
      InsertKeepsOrder(SortDescending(s[..|s| - 1], outranks), s[|s| - 1], outranks);
    }
  }

  lemma InsertMapped<S(!new), T>(s: seq<S>, x: S, outranks: (S, S) -> bool, f: S -> T)
    ensures multiset(Map(Insert(s, x, outranks), f)) == multiset(Map(s, f)) + multiset{f(x)}
  {
    var k := SplitPoint(s, x, outranks);
    assert s == s[..k] + s[k..];
    MapConcat(s[..k], s[k..], f);
    MapConcat(s[..k] + [x], s[k..], f);
    MapSnoc(s[..k], x, f);
  }

  /** Sorting permutes the images too. */
  lemma {:induction false} SortMapped<S(!new), T>(s: seq<S>, outranks: (S, S) -> bool, f: S -> T)
    ensures multiset(Map(SortDescending(s, outranks), f)) == multiset(Map(s, f))
  {
    if s != [] {
      var n := |s| - 1;
      SortMapped(s[..n], outranks, f);
      InsertMapped(SortDescending(s[..n], outranks), s[n], outranks, f);
    }
  }

  lemma SameMultisetSameMembers<T(!new)>(s: seq<T>, t: seq<T>)
    requires multiset(s) == multiset(t)
    ensures forall x :: x in s <==> x in t
  {
    forall x ensures x in s <==> x in t {
      assert x in multiset(s) <==> x in s;
      assert x in multiset(t) <==> x in t;
    }
  }

  lemma SortMembers<T(!new)>(s: seq<T>, outranks: (T, T) -> bool)
    ensures forall x :: x in SortDescending(s, outranks) <==> x in s
  {
    SameMultisetSameMembers(SortDescending(s, outranks), s);
  }

  lemma NoDupByMultiset<T(!new)>(a: seq<T>, b: seq<T>)
    requires NoDup(a) && multiset(a) == multiset(b)
    ensures NoDup(b)
  {
    forall i, j | 0 <= i < j < |b| ensures b[i] != b[j] {
      NoDupMultiplicity(a, b[i]);
      if b[i] == b[j] {
        RepeatCountsTwice(b, i, j);
      }
    }
  }

  lemma RepeatCountsTwice<T(!new)>(b: seq<T>, i: nat, j: nat)
    requires i < j < |b| && b[i] == b[j]
    ensures multiset(b)[b[i]] >= 2
  {
    assert b == b[..i] + [b[i]] + b[i + 1..j] + [b[j]] + b[j + 1..];
  }

  function TiedWith<T>(outranks: (T, T) -> bool, t: T): T -> bool {
    x => !outranks(x, t) && !outranks(t, x)
  }

  /** Stability: elements tied with t keep the order they had. */
  lemma {:induction false} SortIsStable<T(!new)>(s: seq<T>, outranks: (T, T) -> bool, t: T)
    requires RanksByKey(outranks)
    ensures Filter(SortDescending(s, outranks), TiedWith(outranks, t)) == Filter(s, TiedWith(outranks, t))
  {
    if s != [] {
      var n := |s| - 1;
      SortIsStable(s[..n], outranks, t);
      TiesDoNotOutrank(outranks, s[n], t);
      InsertIsStable(SortDescending(s[..n], outranks), s[n], outranks, TiedWith(outranks, t));
    }
  }

  lemma TiesDoNotOutrank<T(!new)>(outranks: (T, T) -> bool, x: T, t: T)
    requires RanksByKey(outranks)
    ensures forall y :: outranks(x, y) ==> !(TiedWith(outranks, t)(x) && TiedWith(outranks, t)(y))
  {
  }

  lemma InsertIsStable<T(!new)>(s: seq<T>, x: T, outranks: (T, T) -> bool, tied: T -> bool)
    requires forall y :: outranks(x, y) ==> !(tied(x) && tied(y))
    ensures Filter(Insert(s, x, outranks), tied) == Filter(s, tied) + (if tied(x) then [x] else [])
  {
    var k := SplitPoint(s, x, outranks);
    var front, tail := s[..k], s[k..];
    assert s == front + tail;
    FilterConcat(front, tail, tied);
    FilterConcat(front + [x], tail, tied);
    FilterSnoc(front, x, tied);
    if tied(x) {
      CountZero(tail, tied);
      assert Filter(tail, tied) == [];
      assert Filter(front, tied) + [] == Filter(front, tied);
    } else {
      assert Filter(s, tied) + [] == Filter(s, tied);
    }
  }

  lemma {:induction false} FilterConcat<T(!new)>(s: seq<T>, t: seq<T>, p: T -> bool)
    ensures Filter(s + t, p) == Filter(s, p) + Filter(t, p)
  {
    if t == [] {
      assert s + t == s;
    } else {
      var n := |t| - 1;
      FilterConcat(s, t[..n], p);
      assert s + t == (s + t[..n]) + [t[n]];
      FilterSnoc(s + t[..n], t[n], p);
    }
  }
}
