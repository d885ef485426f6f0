/** The array idioms the application uses: `[...new Set(xs)]`, `slice(0, n)`,
    `filter`, counting, and the checkbox toggle "append when checked, remove
    every occurrence when unchecked". */
module Collections {

  predicate NoDups<T(==,!new)>(s: seq<T>)
  {
    forall i, j :: 0 <= i < j < |s| ==> s[i] != s[j]
  }

  /** `s.filter(p)`, written from the last element so that a loop which
      appends to an accumulator follows it step by step. */
  function Filter<T(!new)>(s: seq<T>, p: T -> bool): (r: seq<T>)
    ensures |r| <= |s|
    ensures forall x :: x in r <==> x in s && p(x)
  {
    if s == [] then []
    else
      assert s == s[..|s| - 1] + [s[|s| - 1]];
      Filter(s[..|s| - 1], p) + (if p(s[|s| - 1]) then [s[|s| - 1]] else [])
  }

  lemma FilterSnoc<T(!new)>(s: seq<T>, x: T, p: T -> bool)
    ensures Filter(s + [x], p) == Filter(s, p) + (if p(x) then [x] else [])
  {
    assert (s + [x])[..|s|] == s;
  }

  /** One more element of a sequence walked from the front. */
  lemma FilterPrefix<T(!new)>(s: seq<T>, i: nat, p: T -> bool)
    requires i < |s|
    ensures Filter(s[..i + 1], p) == Filter(s[..i], p) + (if p(s[i]) then [s[i]] else [])
  {
    assert s[..i + 1] == s[..i] + [s[i]];
    FilterSnoc(s[..i], s[i], p);
  }

  lemma {:induction false} FilterAppend<T(!new)>(a: seq<T>, b: seq<T>, p: T -> bool)
    ensures Filter(a + b, p) == Filter(a, p) + Filter(b, p)
    decreases |b|
  {
    if b != [] {
      var b' := b[..|b| - 1];
      var x := b[|b| - 1];
      assert b == b' + [x];
      assert a + b == (a + b') + [x];
      FilterSnoc(a + b', x, p);
      FilterSnoc(b', x, p);
      FilterAppend(a, b', p);
    } else {
      assert a + b == a;
    }
  }

  /** `[...new Set(s)]`: every value once, at the place of its first occurrence. */
  function Distinct<T(==,!new)>(s: seq<T>): (r: seq<T>)
    ensures NoDups(r)
    ensures forall x :: x in r <==> x in s
    ensures |r| <= |s|
  {
    if s == [] then []
    else
      var d := Distinct(s[..|s| - 1]);
      assert s == s[..|s| - 1] + [s[|s| - 1]];
      if s[|s| - 1] in d then d else d + [s[|s| - 1]]
  }

  lemma DistinctSnoc<T(!new)>(s: seq<T>, x: T)
    ensures Distinct(s + [x]) == if x in s then Distinct(s) else Distinct(s) + [x]
  {
    assert (s + [x])[..|s|] == s;
  }

  /** First-appearance order: the distinct values of a prefix come first, in
      the same order, among the distinct values of the whole sequence. */
  lemma {:induction false} DistinctPrefix<T(!new)>(s: seq<T>, k: nat)
    requires k <= |s|
    ensures |Distinct(s[..k])| <= |Distinct(s)|
    ensures Distinct(s)[..|Distinct(s[..k])|] == Distinct(s[..k])
    decreases |s|
  {
    if k < |s| {
      var s' := s[..|s| - 1];
      assert s'[..k] == s[..k];
      DistinctPrefix(s', k);
    } else {
      assert s[..k] == s;
    }
  }

  /** A sequence without duplicates is its own `[...new Set(...)]`. */
  lemma {:induction false} DistinctOfNoDups<T(!new)>(s: seq<T>)
    requires NoDups(s)
    ensures Distinct(s) == s
    decreases |s|
  {
    if s != [] {
      var s' := s[..|s| - 1];
      DistinctOfNoDups(s');
      assert s[|s| - 1] !in s';
    }
  }

  /** Keeping the values that pass a test commutes with removing duplicates
      (`Array.from(new Set(xs)).filter(p)` lists the same values as
      `[...new Set(xs.filter(p))]`, in the same order). */
  lemma {:induction false} DistinctFilterCommute<T(!new)>(s: seq<T>, p: T -> bool)
    ensures Filter(Distinct(s), p) == Distinct(Filter(s, p))
    decreases |s|
  {
    if s != [] {
      var s' := s[..|s| - 1];
      var x := s[|s| - 1];
      assert s == s' + [x];
      DistinctFilterCommute(s', p);
      DistinctSnoc(s', x);
      FilterSnoc(s', x, p);
      var fs := Filter(s', p);
      if x in s' {
        assert Distinct(s) == Distinct(s');
        if p(x) {
          assert x in fs;
          DistinctSnoc(fs, x);
          assert Filter(s, p) == fs + [x];
        } else {
          assert Filter(s, p) == fs;
        }
      } else {
        assert Distinct(s) == Distinct(s') + [x];
        FilterSnoc(Distinct(s'), x, p);
        if p(x) {
          assert x !in fs;
          DistinctSnoc(fs, x);
          assert Filter(s, p) == fs + [x];
        } else {
          assert Filter(s, p) == fs;
        }
      }
    }
  }

  /** `s.slice(0, n)`. */
  function Cap<T(!new)>(s: seq<T>, n: nat): (r: seq<T>)
    ensures |r| == if |s| <= n then |s| else n
    ensures r == s[..|r|]
  {
    if |s| <= n then s else s[..n]
  }

  /** The number of occurrences of `x` in `s`. */
  function Count<T(==,!new)>(s: seq<T>, x: T): (n: nat)
    ensures n <= |s|
    ensures n == 0 <==> x !in s
  {
    if s == [] then 0
    else
      assert s == s[..|s| - 1] + [s[|s| - 1]];
      Count(s[..|s| - 1], x) + (if s[|s| - 1] == x then 1 else 0)
  }

  lemma CountSnoc<T(!new)>(s: seq<T>, x: T, y: T)
    ensures Count(s + [x], y) == Count(s, y) + (if x == y then 1 else 0)
  {
    assert (s + [x])[..|s|] == s;
  }

  /** The counts of `keys` in `s`, added up. */
  function SumCounts<T(==,!new)>(keys: seq<T>, s: seq<T>): nat
  {
    if keys == [] then 0 else SumCounts(keys[..|keys| - 1], s) + Count(s, keys[|keys| - 1])
  }

  lemma {:induction false} SumCountsSnoc<T(!new)>(keys: seq<T>, s: seq<T>, x: T)
    requires NoDups(keys)
    ensures SumCounts(keys, s + [x]) == SumCounts(keys, s) + (if x in keys then 1 else 0)
    decreases |keys|
  {
    if keys != [] {
      var init := keys[..|keys| - 1];
      var last := keys[|keys| - 1];
      assert keys == init + [last];
      SumCountsSnoc(init, s, x);
      CountSnoc(s, x, last);
    }
  }

  /** Every element is counted once under its own key. */
  lemma {:induction false} SumCountsDistinct<T(!new)>(s: seq<T>)
    ensures SumCounts(Distinct(s), s) == |s|
    decreases |s|
  {
    if s != [] {
      var init := s[..|s| - 1];
      var x := s[|s| - 1];
      assert s == init + [x];
      var d := Distinct(init);
      SumCountsDistinct(init);
      DistinctSnoc(init, x);
      SumCountsSnoc(d, init, x);
      if x !in init {
        SumCountsNewKey(d, s, x);
        CountSnoc(init, x, x);
      }
    }
  }

  lemma SumCountsNewKey<T(!new)>(keys: seq<T>, s: seq<T>, x: T)
    ensures SumCounts(keys + [x], s) == SumCounts(keys, s) + Count(s, x)
  {
    assert (keys + [x])[..|keys|] == keys;
  }

  /** `xs.filter(y => y !== x)`. */
  function RemoveAll<T(==,!new)>(xs: seq<T>, x: T): (r: seq<T>)
    ensures |r| <= |xs|
    ensures x !in r
    ensures forall y :: y != x ==> (y in r <==> y in xs)
  {
    if xs == [] then []
    else
      assert xs == xs[..|xs| - 1] + [xs[|xs| - 1]];
      RemoveAll(xs[..|xs| - 1], x) + (if xs[|xs| - 1] != x then [xs[|xs| - 1]] else [])
  }

  lemma RemoveAllSnoc<T(!new)>(xs: seq<T>, z: T, x: T)
    ensures RemoveAll(xs + [z], x) == RemoveAll(xs, x) + (if z != x then [z] else [])
  {
    assert (xs + [z])[..|xs|] == xs;
  }

  /** Removing every `x` keeps every other value as often as before. */
  lemma {:induction false} RemoveAllKeepsOthers<T(!new)>(xs: seq<T>, x: T, y: T)
    requires y != x
    ensures Count(RemoveAll(xs, x), y) == Count(xs, y)
    decreases |xs|
  {
    if xs != [] {
      var xs' := xs[..|xs| - 1];
      var z := xs[|xs| - 1];
      assert xs == xs' + [z];
      RemoveAllKeepsOthers(xs', x, y);
      RemoveAllSnoc(xs', z, x);
      CountSnoc(xs', z, y);
      var r' := RemoveAll(xs', x);
      if z != x {
        assert RemoveAll(xs, x) == r' + [z];
        CountSnoc(r', z, y);
      } else {
        assert RemoveAll(xs, x) == r';
      }
    }
  }

  /** A list without `x` is left as it is by removing `x`. */
  lemma {:induction false} RemoveAllAbsent<T(!new)>(xs: seq<T>, x: T)
    requires x !in xs
    ensures RemoveAll(xs, x) == xs
    decreases |xs|
  {
    if xs != [] {
      var xs' := xs[..|xs| - 1];
      assert xs == xs' + [xs[|xs| - 1]];
      RemoveAllAbsent(xs', x);
    }
  }

  /** Removing the one value a list holds leaves it empty. */
  lemma {:induction false} RemoveAllOnly<T(!new)>(xs: seq<T>, x: T)
    requires forall y :: y in xs ==> y == x
    ensures RemoveAll(xs, x) == []
    decreases |xs|
  {
    if xs != [] {
      var xs' := xs[..|xs| - 1];
      assert xs == xs' + [xs[|xs| - 1]];
      assert xs[|xs| - 1] in xs;
      forall y | y in xs' ensures y == x {
        assert y in xs;
      }
      RemoveAllOnly(xs', x);
    }
  }

  /** A checkbox toggle on a list: checking appends the value (without
      looking for an existing copy), unchecking removes every copy. */
  function Toggled<T(==,!new)>(xs: seq<T>, x: T, checked: bool): (r: seq<T>)
    ensures checked ==> r == xs + [x] && Count(r, x) == Count(xs, x) + 1
    ensures !checked ==> x !in r
    ensures forall y :: y != x ==> Count(r, y) == Count(xs, y)
  {
    if checked then
      assert forall y :: Count(xs + [x], y) == Count(xs, y) + (if x == y then 1 else 0) by {
        forall y { CountSnoc(xs, x, y); }
      }
      xs + [x]
    else
      assert forall y :: y != x ==> Count(RemoveAll(xs, x), y) == Count(xs, y) by {
        forall y | y != x { RemoveAllKeepsOthers(xs, x, y); }
      }
      RemoveAll(xs, x)
  }

  /** Checking then unchecking a value that was not selected restores the list. */
  lemma ToggleRoundTrip<T(!new)>(xs: seq<T>, x: T)
    requires x !in xs
    ensures Toggled(Toggled(xs, x, true), x, false) == xs
  {
    RemoveAllSnoc(xs, x, x);
    RemoveAllAbsent(xs, x);
  }

  /** The values of a duplicate-free sequence form a set of the same size. */
  lemma {:induction false} NoDupsCard<T(!new)>(s: seq<T>)
    requires NoDups(s)
    ensures |set x | x in s| == |s|
    decreases |s|
  {
    if s != [] {
      var s' := s[..|s| - 1];
      var x := s[|s| - 1];
      assert s == s' + [x];
      NoDupsCard(s');
      assert (set y | y in s) == (set y | y in s') + {x};
      assert x !in (set y | y in s');
    }
  }

  /** A subset is no larger than its superset. */
  lemma {:induction false} SubsetCard<T>(a: set<T>, b: set<T>)
    requires a <= b
    ensures |a| <= |b|
    decreases |a|
  {
    if a != {} {
      var x :| x in a;
      SubsetCard(a - {x}, b - {x});
    }
  }

  /** A duplicate-free sequence drawn from `pool` is no longer than the
      number of distinct values of `pool`. */
  lemma NoDupsBound<T(!new)>(s: seq<T>, pool: seq<T>)
    requires NoDups(s)
    requires forall x :: x in s ==> x in pool
    ensures |s| <= |set x | x in pool|
  {
    NoDupsCard(s);
    SubsetCard(set x | x in s, set x | x in pool);
  }

  /** The shape every extraction pass ends with, `[...new Set(s)].slice(0, cap)`:
      no duplicates, at most `cap` values, each drawn from `s`, in
      first-appearance order, and nothing of `s` lost when it holds at most
      `cap` distinct values. */
  lemma CappedDistinct<T(!new)>(s: seq<T>, cap: nat)
    ensures NoDups(Cap(Distinct(s), cap))
    ensures |Cap(Distinct(s), cap)| <= cap
    ensures forall x :: x in Cap(Distinct(s), cap) ==> x in s
    ensures Cap(Distinct(s), cap) == Distinct(s)[..|Cap(Distinct(s), cap)|]
    ensures |Distinct(s)| <= cap ==> forall x :: x in s ==> x in Cap(Distinct(s), cap)
  {
    var d := Distinct(s);
    var r := Cap(d, cap);
    forall x | x in r ensures x in s {
      var k :| 0 <= k < |r| && r[k] == x;
      assert d[k] == x;
    }
  }

  /** No duplicates means every value occurs at most once. */
  lemma {:induction false} NoDupsMultiset<T(!new)>(s: seq<T>)
    ensures NoDups(s) <==> forall x :: multiset(s)[x] <= 1
    decreases |s|
  {
    if s != [] {
      var s' := s[..|s| - 1];
      var y := s[|s| - 1];
      assert s == s' + [y];
      NoDupsMultiset(s');
      if NoDups(s) {
        assert NoDups(s');
        forall k | 0 <= k < |s'| ensures s'[k] != y {
          assert s[k] == s'[k];
        }
      }
      if forall x :: multiset(s)[x] <= 1 {
        forall x ensures multiset(s')[x] <= 1 {
          assert multiset(s)[x] == multiset(s')[x] + (if x == y then 1 else 0);
        }
        assert multiset(s)[y] == multiset(s')[y] + 1;
        assert y !in multiset(s');
        forall i, j | 0 <= i < j < |s| ensures s[i] != s[j] {
          if j == |s| - 1 {
            assert s[i] in s';
          } else {
            assert s[i] == s'[i] && s[j] == s'[j];
          }
        }
      }
    }
  }

  /** A rearrangement of a duplicate-free sequence is duplicate-free. */
  lemma NoDupsPermutation<T(!new)>(a: seq<T>, b: seq<T>)
    requires NoDups(a) && multiset(a) == multiset(b)
    ensures NoDups(b)
  {
    NoDupsMultiset(a);
    NoDupsMultiset(b);
  }

  /** A non-empty prefix splits into its head and the rest. */
  lemma HeadTail<T>(a: seq<T>, b: seq<T>)
    requires a != []
    ensures (a + b)[0] == a[0] && (a + b)[1..] == a[1..] + b
    ensures a + b == [a[0]] + (a[1..] + b)
  {
    assert a == [a[0]] + a[1..];
  }

  /** `p` holds everywhere in a non-empty sequence exactly when it holds
      before the last element and at it. */
  lemma AllSnoc<T>(s: seq<T>, init: seq<T>, p: T -> bool)
    requires s != [] && init == s[..|s| - 1]
    ensures (forall k :: 0 <= k < |s| ==> p(s[k]))
      <==> (forall k :: 0 <= k < |init| ==> p(init[k])) && p(s[|s| - 1])
  {
    assert forall k :: 0 <= k < |init| ==> init[k] == s[k];
  }

  /** `s.forEach(x => out.push(...f(x)))`: the results of `f`, concatenated in order. */
  function FlatMap<T, U>(s: seq<T>, f: T -> seq<U>): seq<U>
  {
    if s == [] then [] else FlatMap(s[..|s| - 1], f) + f(s[|s| - 1])
  }

  lemma FlatMapSnoc<T, U>(s: seq<T>, x: T, f: T -> seq<U>)
    ensures FlatMap(s + [x], f) == FlatMap(s, f) + f(x)
  {
    assert (s + [x])[..|s|] == s;
  }

  /** A value is produced exactly when some element produces it. */
  lemma {:induction false} FlatMapMember<T, U>(s: seq<T>, f: T -> seq<U>, y: U)
    ensures y in FlatMap(s, f) <==> exists i :: 0 <= i < |s| && y in f(s[i])
    decreases |s|
  {
    if s != [] {
      var s' := s[..|s| - 1];
      FlatMapMember(s', f, y);
      if exists i :: 0 <= i < |s'| && y in f(s'[i]) {
        var i :| 0 <= i < |s'| && y in f(s'[i]);
        assert s[i] == s'[i];
      }
      if exists i :: 0 <= i < |s| && y in f(s[i]) {
        var i :| 0 <= i < |s| && y in f(s[i]);
        if i < |s'| {
          assert s[i] == s'[i];
        }
      }
    }
  }
}
