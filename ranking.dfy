/**
 * The pure table expressions `get_full_data` is built from: boolean-mask
 * filtering, column sums, `nlargest` and `groupby(...).sum()`.
 */
module Ranking {
  import opened Wrappers

  // ---------------------------------------------------------------------
  // Filtering and sums.

  /** `df[mask]`: the elements satisfying `p`, in their original order. */
  function Filter<T>(s: seq<T>, p: T -> bool): (r: seq<T>)
    ensures |r| <= |s|
    ensures forall i :: 0 <= i < |r| ==> p(r[i])
    decreases |s|
  {
    if s == [] then []
    else if p(s[|s| - 1]) then Filter(s[..|s| - 1], p) + [s[|s| - 1]]
    else Filter(s[..|s| - 1], p)
  }

  /** An element is kept by the filter exactly when it is in the input and satisfies `p`. */
  lemma {:induction false} FilterMembership<T>(s: seq<T>, p: T -> bool, x: T)
    ensures x in Filter(s, p) <==> x in s && p(x)
    decreases |s|
  {
    if s != [] {
      var init := s[..|s| - 1];
      FilterMembership(init, p, x);
      assert s == init + [s[|s| - 1]];
    }
  }

  /** Filtering a concatenation filters each part and keeps them in order. */
  lemma {:induction false} FilterAppend<T>(a: seq<T>, b: seq<T>, p: T -> bool)
    ensures Filter(a + b, p) == Filter(a, p) + Filter(b, p)
    decreases |b|
  {
    if b != [] {
      var init := b[..|b| - 1];
      assert (a + b)[..|a + b| - 1] == a + init;
      assert (a + b)[|a + b| - 1] == b[|b| - 1];
      FilterAppend(a, init, p);
    } else {
      assert a + b == a;
    }
  }

  /** `series.sum()` of `key` over `s`. */
  function SumBy<T>(s: seq<T>, key: T -> real): real
    decreases |s|
  {
    if s == [] then 0.0 else SumBy(s[..|s| - 1], key) + key(s[|s| - 1])
  }

  /** Sums split over concatenation. */
  lemma {:induction false} SumByAppend<T>(a: seq<T>, b: seq<T>, key: T -> real)
    ensures SumBy(a + b, key) == SumBy(a, key) + SumBy(b, key)
    decreases |b|
  {
    if b != [] {
      var init := b[..|b| - 1];
      assert (a + b)[..|a + b| - 1] == a + init;
      assert (a + b)[|a + b| - 1] == b[|b| - 1];
      SumByAppend(a, init, key);
    } else {
      assert a + b == a;
    }
  }

  // ---------------------------------------------------------------------
  // `nlargest`: a stable descending sort cut to its first k elements.

  /** Non-increasing by `key`. */
  predicate DescendingBy<T>(s: seq<T>, key: T -> real) {
    forall i, j :: 0 <= i < j < |s| ==> key(s[i]) >= key(s[j])
  }

  /** Places `x` before the first element whose key does not exceed its own. */
  function Insert<T>(x: T, s: seq<T>, key: T -> real): (r: seq<T>)
    ensures |r| == |s| + 1
    decreases |s|
  {
    if s == [] || key(s[0]) <= key(x) then [x] + s
    else [s[0]] + Insert(x, s[1..], key)
  }

  /** Inserting into a descending sequence adds exactly `x` and keeps it descending. */
  lemma {:induction false} InsertSpec<T>(x: T, s: seq<T>, key: T -> real)
    requires DescendingBy(s, key)
    ensures |Insert(x, s, key)| == |s| + 1
    ensures multiset(Insert(x, s, key)) == multiset(s) + multiset{x}
    ensures DescendingBy(Insert(x, s, key), key)
    decreases |s|
  {
    if s == [] || key(s[0]) <= key(x) {
      ConsDescending(x, s, key);
    } else {
      var rest := Insert(x, s[1..], key);
      InsertSpec(x, s[1..], key);
      assert multiset(s) == multiset{s[0]} + multiset(s[1..]) by {
        assert s == [s[0]] + s[1..];
      }
      forall i | 0 <= i < |rest| ensures key(rest[i]) <= key(s[0]) {
        InsertBelow(x, s, key, rest, i);
      }
      ConsDescending(s[0], rest, key);
    }
  }

  /** An element of the insertion into `s[1..]` is no larger than `s[0]`. */
  lemma InsertBelow<T>(x: T, s: seq<T>, key: T -> real, rest: seq<T>, i: int)
    requires DescendingBy(s, key) && s != [] && key(s[0]) > key(x)
    requires multiset(rest) == multiset(s[1..]) + multiset{x}
    requires 0 <= i < |rest|
    ensures key(rest[i]) <= key(s[0])
  {
    assert rest[i] in multiset(rest);
    if rest[i] != x {
      assert rest[i] in multiset(s[1..]);
      var j :| 0 <= j < |s[1..]| && s[1..][j] == rest[i];
      assert s[j + 1] == rest[i];
    }
  }

  /** A head no smaller than anything in a descending tail gives a descending sequence. */
  lemma ConsDescending<T>(h: T, rest: seq<T>, key: T -> real)
    requires DescendingBy(rest, key)
    requires forall i :: 0 <= i < |rest| ==> key(rest[i]) <= key(h)
    ensures DescendingBy([h] + rest, key)
  {
    var r := [h] + rest;
    forall i, j | 0 <= i < j < |r| ensures key(r[i]) >= key(r[j]) {
      assert r[j] == rest[j - 1];
      if i > 0 {
        assert r[i] == rest[i - 1];
      }
    }
  }

  /** The elements of `s` rearranged into descending order by `key`, by insertion. */
  function SortDesc<T>(s: seq<T>, key: T -> real): (r: seq<T>)
    ensures |r| == |s|
    decreases |s|
  {
    if s == [] then [] else Insert(s[0], SortDesc(s[1..], key), key)
  }

  /** Sorting rearranges the elements into descending order. */
  lemma {:induction false} SortDescSpec<T>(s: seq<T>, key: T -> real)
    ensures multiset(SortDesc(s, key)) == multiset(s)
    ensures DescendingBy(SortDesc(s, key), key)
    decreases |s|
  {
    if s != [] {
      SortDescSpec(s[1..], key);
      InsertSpec(s[0], SortDesc(s[1..], key), key);
      assert s == [s[0]] + s[1..];
    }
  }

  function Min(a: int, b: int): int {
    if a <= b then a else b
  }

  /** `nlargest(k)`: the first `k` elements of the descending order. */
  function TopK<T>(s: seq<T>, key: T -> real, k: nat): seq<T> {
    SortDesc(s, key)[..Min(k, |s|)]
  }

  /**
   * `nlargest(k)` yields `min(k, n)` elements of the input in descending order,
   * and every element it leaves out is no larger than every one it keeps.
   */
  lemma TopKSpec<T>(s: seq<T>, key: T -> real, k: nat)
    ensures |TopK(s, key, k)| == Min(k, |s|)
    ensures DescendingBy(TopK(s, key, k), key)
    ensures multiset(TopK(s, key, k)) <= multiset(s)
    ensures forall x, i :: x in multiset(s) - multiset(TopK(s, key, k)) && 0 <= i < |TopK(s, key, k)| ==>
              key(x) <= key(TopK(s, key, k)[i])
  {
    var sorted := SortDesc(s, key);
    SortDescSpec(s, key);
    var m := Min(k, |s|);
    var top, rest := sorted[..m], sorted[m..];
    assert sorted == top + rest;
    assert multiset(s) == multiset(top) + multiset(rest);
    forall x, i | x in multiset(s) - multiset(top) && 0 <= i < |top|
      ensures key(x) <= key(top[i])
    {
      assert x in rest;
      var t :| 0 <= t < |rest| && rest[t] == x;
      assert sorted[m + t] == x && sorted[i] == top[i];
    }
  }

  // ---------------------------------------------------------------------
  // `groupby(key)[value].sum()`.

  /** A group name and its summed value. */
  datatype Group = Group(name: string, total: real)

  /** The group names, in group order (`group.index.astype(str).tolist()`). */
  function Names(groups: seq<Group>): (r: seq<string>)
    ensures |r| == |groups|
    ensures forall i :: 0 <= i < |groups| ==> r[i] == groups[i].name
    decreases |groups|
  {
    if groups == [] then [] else [groups[0].name] + Names(groups[1..])
  }

  /** The group totals, in group order (`group.values.tolist()`). */
  function Totals(groups: seq<Group>): (r: seq<real>)
    ensures |r| == |groups|
    ensures forall i :: 0 <= i < |groups| ==> r[i] == groups[i].total
  {
    seq(|groups|, i requires 0 <= i < |groups| => groups[i].total)
  }

  /** Adds `value` to the group called `name`, opening a new group at the end if there is none. */
  function AddTo(groups: seq<Group>, name: string, value: real): seq<Group>
    decreases |groups|
  {
    if groups == [] then [Group(name, value)]
    else if groups[0].name == name then [Group(name, groups[0].total + value)] + groups[1..]
    else [groups[0]] + AddTo(groups[1..], name, value)
  }

  /**
   * The group sums of (key, value) pairs, one group per distinct present key
   * in order of first appearance; pairs whose key is missing are dropped.
   */
  function GroupSums(pairs: seq<(Option<string>, real)>): seq<Group>
    decreases |pairs|
  {
    if pairs == [] then []
    else
      var groups := GroupSums(pairs[..|pairs| - 1]);
      match pairs[|pairs| - 1].0
      case None => groups
      case Some(name) => AddTo(groups, name, pairs[|pairs| - 1].1)
  }

  /** Reference definition: the sum of the values of the pairs whose key is `name`. */
  function GroupTotal(pairs: seq<(Option<string>, real)>, name: string): real
    decreases |pairs|
  {
    if pairs == [] then 0.0
    else
      GroupTotal(pairs[..|pairs| - 1], name)
        + (if pairs[|pairs| - 1].0 == Some(name) then pairs[|pairs| - 1].1 else 0.0)
  }

  /** No two groups share a name. */
  predicate DistinctNames(groups: seq<Group>) {
    forall i, j :: 0 <= i < j < |groups| ==> groups[i].name != groups[j].name
  }

  /** The total recorded for `name`, 0 when there is no such group. */
  function TotalOf(groups: seq<Group>, name: string): real
    decreases |groups|
  {
    if groups == [] then 0.0
    else if groups[0].name == name then groups[0].total
    else TotalOf(groups[1..], name)
  }

  /** `AddTo` adds `name` to the names and no other name. */
  lemma {:induction false} AddToNames(groups: seq<Group>, name: string, value: real)
    ensures forall n :: n in Names(AddTo(groups, name, value)) <==> n in Names(groups) || n == name
    decreases |groups|
  {
    if groups != [] {
      assert Names(groups) == [groups[0].name] + Names(groups[1..]);
      if groups[0].name != name {
        AddToNames(groups[1..], name, value);
        assert Names(AddTo(groups, name, value)) == [groups[0].name] + Names(AddTo(groups[1..], name, value));
      } else {
        assert Names(AddTo(groups, name, value)) == [name] + Names(groups[1..]);
      }
    } else {
      assert Names(AddTo(groups, name, value)) == [name];
    }
  }

  /** `AddTo` keeps the names distinct. */
  lemma {:induction false} AddToDistinct(groups: seq<Group>, name: string, value: real)
    requires DistinctNames(groups)
    ensures DistinctNames(AddTo(groups, name, value))
    decreases |groups|
  {
    if groups != [] && groups[0].name != name {
      var rest := AddTo(groups[1..], name, value);
      AddToDistinct(groups[1..], name, value);
      AddToNames(groups[1..], name, value);
      forall i | 0 <= i < |rest| ensures rest[i].name != groups[0].name {
        assert rest[i].name in Names(rest);
        if rest[i].name != name {
          var j :| 0 <= j < |groups[1..]| && Names(groups[1..])[j] == rest[i].name;
          assert groups[j + 1].name == rest[i].name;
        }
      }
    }
  }

  /** With distinct names, the total recorded for a group's name is that group's total. */
  lemma {:induction false} TotalOfDistinct(groups: seq<Group>, i: int)
    requires DistinctNames(groups)
    requires 0 <= i < |groups|
    ensures TotalOf(groups, groups[i].name) == groups[i].total
    decreases |groups|
  {
    if i > 0 {
      TotalOfDistinct(groups[1..], i - 1);
    }
  }

  /** `AddTo` raises the total of `name` by `value` and leaves every other total alone. */
  lemma {:induction false} AddToTotal(groups: seq<Group>, name: string, value: real, n: string)
    ensures TotalOf(AddTo(groups, name, value), n) == TotalOf(groups, n) + (if n == name then value else 0.0)
    decreases |groups|
  {
    if groups != [] && groups[0].name != name {
      AddToTotal(groups[1..], name, value, n);
    }
  }

  /** A name with no group has total 0. */
  lemma {:induction false} TotalOfAbsent(groups: seq<Group>, name: string)
    requires name !in Names(groups)
    ensures TotalOf(groups, name) == 0.0
    decreases |groups|
  {
    if groups != [] {
      assert Names(groups) == [groups[0].name] + Names(groups[1..]);
      TotalOfAbsent(groups[1..], name);
    }
  }

  /** The names of the group sums are exactly the keys present among the pairs. */
  lemma {:induction false} GroupSumsNames(pairs: seq<(Option<string>, real)>)
    ensures forall n :: n in Names(GroupSums(pairs)) <==> Some(n) in Keys(pairs)
    decreases |pairs|
  {
    if pairs != [] {
      var init, last := pairs[..|pairs| - 1], pairs[|pairs| - 1];
      GroupSumsNames(init);
      assert Keys(pairs) == Keys(init) + [last.0];
      if last.0.Some? {
        AddToNames(GroupSums(init), last.0.value, last.1);
      }
    }
  }

  /** The key of each pair, in order. */
  function Keys(pairs: seq<(Option<string>, real)>): (r: seq<Option<string>>)
    ensures |r| == |pairs|
    ensures forall i :: 0 <= i < |pairs| ==> r[i] == pairs[i].0
  {
    seq(|pairs|, i requires 0 <= i < |pairs| => pairs[i].0)
  }

  /** The total recorded for any name is the reference sum of its values. */
  lemma {:induction false} GroupSumsTotals(pairs: seq<(Option<string>, real)>, n: string)
    ensures TotalOf(GroupSums(pairs), n) == GroupTotal(pairs, n)
    decreases |pairs|
  {
    if pairs != [] {
      var init, last := pairs[..|pairs| - 1], pairs[|pairs| - 1];
      GroupSumsTotals(init, n);
      if last.0.Some? {
        AddToTotal(GroupSums(init), last.0.value, last.1, n);
      }
    }
  }

  /** The group sums never repeat a name. */
  lemma {:induction false} GroupSumsDistinct(pairs: seq<(Option<string>, real)>)
    ensures DistinctNames(GroupSums(pairs))
    decreases |pairs|
  {
    if pairs != [] {
      var init, last := pairs[..|pairs| - 1], pairs[|pairs| - 1];
      GroupSumsDistinct(init);
      if last.0.Some? {
        AddToDistinct(GroupSums(init), last.0.value, last.1);
      }
    }
  }

  /**
   * `groupby(...).sum()`: one group per distinct present key and no other
   * groups, each group's total being the sum of the values carrying its key.
   */
  lemma GroupSumsSpec(pairs: seq<(Option<string>, real)>)
    ensures DistinctNames(GroupSums(pairs))
    ensures forall n :: n in Names(GroupSums(pairs)) <==> Some(n) in Keys(pairs)
    ensures forall i :: 0 <= i < |GroupSums(pairs)| ==>
              GroupSums(pairs)[i].total == GroupTotal(pairs, GroupSums(pairs)[i].name)
  {
    var groups := GroupSums(pairs);
    GroupSumsDistinct(pairs);
    GroupSumsNames(pairs);
    forall i | 0 <= i < |groups| ensures groups[i].total == GroupTotal(pairs, groups[i].name) {
      TotalOfDistinct(groups, i);
      GroupSumsTotals(pairs, groups[i].name);
    }
  }
}
