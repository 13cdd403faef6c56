/** Value types shared by every component. */
module Basics {
  datatype Option<+T> = None | Some(value: T)

  /** The outcome of a call into another service, which may throw. */
  datatype Answer<+T> = Answered(value: T) | Threw

  /** Reads a map the way `Map.get` does. */
  function Lookup<K, V>(m: map<K, V>, k: K): Option<V> {
    if k in m then Some(m[k]) else None
  }

  ghost predicate NoDuplicates<T>(s: seq<T>) {
    forall i, j :: 0 <= i < j < |s| ==> s[i] != s[j]
  }

  /** `s` lists the members of `ids`, each once. */
  ghost predicate Lists<T>(s: seq<T>, ids: set<T>) {
    && NoDuplicates(s)
    && (forall x :: x in s ==> x in ids)
    && (forall x :: x in ids ==> x in s)
  }

  lemma SliceInTwo<T>(s: seq<T>, i: nat, j: nat)
    requires i <= j <= |s|
    ensures s[..j] == s[..i] + s[i..j]
  {
  }

  lemma LastApart<T>(s: seq<T>)
    requires s != []
    ensures s == s[..|s| - 1] + [s[|s| - 1]]
  {
  }

  lemma ListsSnoc<T>(s: seq<T>, ids: set<T>, x: T)
    requires Lists(s, ids) && x !in ids
    ensures Lists(s + [x], ids + {x})
  {
  }

  /** A strict total order: the database's or the runtime's collation. */
  ghost predicate StrictTotalOrder<T(!new)>(before: (T, T) -> bool) {
    && (forall x :: !before(x, x))
    && (forall x, y :: x != y ==> before(x, y) || before(y, x))
    && (forall x, y, z :: before(x, y) && before(y, z) ==> before(x, z))
  }

  function MapSeq<A, B>(f: A -> B, s: seq<A>): (r: seq<B>)
    ensures |r| == |s|
    ensures forall i :: 0 <= i < |s| ==> r[i] == f(s[i])
  {
    seq(|s|, i requires 0 <= i < |s| => f(s[i]))
  }

  lemma MapSeqCovered<A, B>(f: A -> B, s: seq<A>, t: seq<A>)
    requires multiset(s) == multiset(t)
    ensures forall r :: r in MapSeq(f, s) ==> r in MapSeq(f, t)
  {
    forall r | r in MapSeq(f, s) ensures r in MapSeq(f, t) {
      var i :| 0 <= i < |s| && MapSeq(f, s)[i] == r;
      assert s[i] in multiset(s) && s[i] in multiset(t) && s[i] in t;
      var j :| 0 <= j < |t| && t[j] == s[i];
      assert MapSeq(f, t)[j] == r;
    }
  }

  lemma MapSeqMoved<A, B>(f: A -> B, s: seq<A>, i: nat)
    requires i < |s|
    ensures var r := MapSeq(f, s);
            MapSeq(f, [s[i]] + s[..i] + s[i + 1..]) == [r[i]] + r[..i] + r[i + 1..]
    ensures multiset([s[i]] + s[..i] + s[i + 1..]) == multiset(s)
  {
    assert s == s[..i] + [s[i]] + s[i + 1..];
  }

  lemma LookupsDecide<K, V>(m: map<K, V>, n: map<K, V>)
    requires forall k :: Lookup(m, k) == Lookup(n, k)
    ensures m == n
  {
    forall k ensures k in m <==> k in n {
      assert Lookup(m, k) == Lookup(n, k);
    }
    forall k | k in m ensures m[k] == n[k] {
      assert Lookup(m, k) == Lookup(n, k);
    }
  }

  /** `Set.add`, on the list of a set's members in insertion order. */
  function AddOnce<T(==)>(members: seq<T>, x: Option<T>): seq<T> {
    if x.None? || x.value in members then members else members + [x.value]
  }

  /** The values present, each once, in the order of first occurrence: an insertion-ordered `Set`. */
  function DistinctSome<T(==)>(s: seq<Option<T>>): seq<T> {
    if s == [] then []
    else AddOnce(DistinctSome(s[..|s| - 1]), s[|s| - 1])
  }

  lemma MapSeqSnoc<S, T>(f: S -> T, s: seq<S>, x: S)
    ensures MapSeq(f, s + [x]) == MapSeq(f, s) + [f(x)]
  {
  }

  lemma {:induction false} DistinctMembers<T>(s: seq<Option<T>>)
    ensures NoDuplicates(DistinctSome(s))
    ensures forall x :: x in DistinctSome(s) <==> Some(x) in s
  {
    if s != [] {
      DistinctMembers(s[..|s| - 1]);
      LastApart(s);
    }
  }

  lemma DistinctLast<T>(s: seq<Option<T>>)
    requires s != []
    ensures DistinctSome(s) == AddOnce(DistinctSome(s[..|s| - 1]), s[|s| - 1])
  {
  }

  /** Of two of the distinct values the earlier one occurs before the other's first occurrence. */
  lemma {:induction false} DistinctInOrder<T>(s: seq<Option<T>>, a: nat, b: nat) returns (i: nat)
    requires a < b < |DistinctSome(s)|
    ensures i < |s| && s[i] == Some(DistinctSome(s)[a]) && forall j :: 0 <= j <= i ==> s[j] != Some(DistinctSome(s)[b])
  {
    var before := s[..|s| - 1];
    DistinctLast(s);
    if b < |DistinctSome(before)| {
      i := DistinctInOrder(before, a, b);
    } else {
      i := OldIsEarlier(before, DistinctSome(before)[a], DistinctSome(s)[b]);
    }
  }

  lemma OldIsEarlier<T>(s: seq<Option<T>>, x: T, y: T) returns (i: nat)
    requires x in DistinctSome(s) && y !in DistinctSome(s)
    ensures i < |s| && s[i] == Some(x) && forall j :: 0 <= j < |s| ==> s[j] != Some(y)
  {
    DistinctMembers(s);
    i :| 0 <= i < |s| && s[i] == Some(x);
    assert forall j :: 0 <= j < |s| ==> s[j] in s;
  }

  lemma DistinctSnoc<S, T>(s: seq<S>, f: S -> Option<T>, n: nat)
    requires n < |s|
    ensures DistinctSome(MapSeq(f, s[..n + 1])) == AddOnce(DistinctSome(MapSeq(f, s[..n])), f(s[n]))
  {
    var all := MapSeq(f, s[..n + 1]);
    assert all == MapSeq(f, s[..n]) + [f(s[n])];
    assert all[..n] == MapSeq(f, s[..n]);
  }

  function FirstSome<T>(s: seq<Option<T>>): (r: Option<T>)
    ensures r.Some? ==> r in s
    ensures r.None? <==> forall i :: 0 <= i < |s| ==> s[i].None?
  {
    if s == [] then None
    else if s[0].Some? then s[0]
    else
      assert s[1..] + [] == s[1..];
      FirstSome(s[1..])
  }

  lemma {:induction false} FirstSomeInTwo<T>(s: seq<Option<T>>, t: seq<Option<T>>)
    ensures FirstSome(s + t) == if FirstSome(s).Some? then FirstSome(s) else FirstSome(t)
  {
    if s == [] {
      assert s + t == t;
    } else {
      assert (s + t)[1..] == s[1..] + t;
      FirstSomeInTwo(s[1..], t);
    }
  }

  /** Searching the distinct values is searching the list. */
  lemma {:induction false} FirstOfDistinct<S(!new), T>(s: seq<Option<S>>, g: S -> Option<T>, h: Option<S> -> Option<T>)
    requires h(None) == None && forall x :: h(Some(x)) == g(x)
    ensures FirstSome(MapSeq(g, DistinctSome(s))) == FirstSome(MapSeq(h, s))
  {
    if s != [] {
      var before, last := s[..|s| - 1], s[|s| - 1];
      FirstOfDistinct(before, g, h);
      var earlier := DistinctSome(before);
      assert MapSeq(h, s) == MapSeq(h, before) + [h(last)];
      FirstSomeInTwo(MapSeq(h, before), [h(last)]);
      if last.Some? {
        if last.value in earlier {
          var i :| 0 <= i < |earlier| && earlier[i] == last.value;
          assert MapSeq(g, earlier)[i] == g(last.value);
        } else {
          assert MapSeq(g, earlier + [last.value]) == MapSeq(g, earlier) + [g(last.value)];
          FirstSomeInTwo(MapSeq(g, earlier), [g(last.value)]);
        }
      }
    }
  }

  /** So is testing them. */
  lemma MemberOfDistinct<S(!new), T>(s: seq<Option<S>>, g: S -> Option<T>, h: Option<S> -> Option<T>, v: T)
    requires h(None) == None && forall x :: h(Some(x)) == g(x)
    ensures Some(v) in MapSeq(g, DistinctSome(s)) <==> Some(v) in MapSeq(h, s)
  {
    var distinct := DistinctSome(s);
    DistinctMembers(s);
    if Some(v) in MapSeq(g, distinct) {
      var i :| 0 <= i < |distinct| && MapSeq(g, distinct)[i] == Some(v);
      assert distinct[i] in distinct;
      var j :| 0 <= j < |s| && s[j] == Some(distinct[i]);
      assert MapSeq(h, s)[j] == Some(v);
    }
    if Some(v) in MapSeq(h, s) {
      var j :| 0 <= j < |s| && MapSeq(h, s)[j] == Some(v);
      assert s[j].Some? && Some(s[j].value) in s;
      var i :| 0 <= i < |distinct| && distinct[i] == s[j].value;
      assert MapSeq(g, distinct)[i] == Some(v);
    }
  }

  function Filter<T>(keep: T -> bool, s: seq<T>): (r: seq<T>)
    ensures forall x :: x in r ==> x in s && keep(x)
    ensures forall x :: x in s && keep(x) ==> x in r
  {
    if s == [] then []
    else
      var earlier, last := Filter(keep, s[..|s| - 1]), s[|s| - 1];
      assert s == s[..|s| - 1] + [last];
      if keep(last) then earlier + [last] else earlier
  }

  lemma ListedSize<T>(s: seq<T>, ids: set<T>)
    requires Lists(s, ids)
    ensures |s| == |ids|
  {
    if s != [] {
      var shorter, last := s[..|s| - 1], s[|s| - 1];
      assert Lists(shorter, ids - {last});
      ListedSize(shorter, ids - {last});
    }
  }

  lemma SubsetOfSameSize<T>(s: set<T>, t: set<T>)
    requires s <= t && |s| == |t|
    ensures s == t
  {
    if x :| x in t && x !in s {
      assert |t - {x}| == |t| - 1 && s <= t - {x};
      SmallerSubset(s, t - {x});
    }
  }

  lemma SmallerSubset<T>(s: set<T>, t: set<T>)
    requires s <= t
    ensures |s| <= |t|
    decreases s
  {
    if x :| x in s {
      SmallerSubset(s - {x}, t - {x});
    }
  }
}
