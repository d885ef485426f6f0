/** Ranking of candidate topics by how often they occur: a frequency table
    filled in first-appearance order, then a stable sort by count, highest
    first (the engine's `Array.prototype.sort` is stable). */
module Ranking {
  import opened Collections

  /** The frequency table after counting `s` (`freq[t] = (freq[t] || 0) + 1`). */
  function Frequencies(s: seq<string>): (freq: map<string, nat>)
    ensures Keyed(s, freq)
  {
    if s == [] then map[]
    else
      var f := Frequencies(s[..|s| - 1]);
      var x := s[|s| - 1];
      assert s == s[..|s| - 1] + [x];
      f[x := (if x in f then f[x] else 0) + 1]
  }

  /** The table has an entry for exactly the values of `s`. */
  lemma {:induction false} FrequenciesKeys(s: seq<string>, k: string)
    ensures k in Frequencies(s) <==> k in s
    decreases |s|
  {
    if s != [] {
      var s' := s[..|s| - 1];
      assert s == s' + [s[|s| - 1]];
      FrequenciesKeys(s', k);
    }
  }

  /** Each entry of the table is the number of occurrences of its key. */
  lemma {:induction false} FrequenciesCount(s: seq<string>, k: string)
    requires k in s
    ensures Frequencies(s)[k] == Count(s, k)
    decreases |s|
  {
    var s' := s[..|s| - 1];
    var x := s[|s| - 1];
    assert s == s' + [x];
    CountSnoc(s', x, k);
    if k in s' {
      FrequenciesCount(s', k);
    } else {
      FrequenciesKeys(s', k);
    }
  }

  /** One counting step over the candidates walked so far, and the key list
      it extends. */
  lemma FrequenciesPrefix(s: seq<string>, i: nat)
    requires i < |s|
    ensures Frequencies(s[..i + 1])
         == Frequencies(s[..i])[s[i] := (if s[i] in Frequencies(s[..i]) then Frequencies(s[..i])[s[i]] else 0) + 1]
    ensures Distinct(s[..i + 1]) == if s[i] in Frequencies(s[..i]) then Distinct(s[..i]) else Distinct(s[..i]) + [s[i]]
  {
    assert s[..i + 1] == s[..i] + [s[i]];
    assert (s[..i] + [s[i]])[..i] == s[..i];
    FrequenciesKeys(s[..i], s[i]);
  }

  predicate Keyed(keys: seq<string>, freq: map<string, nat>)
  {
    forall k :: k in keys ==> k in freq
  }

  /** Sorted by count, highest first. */
  predicate Descending(s: seq<string>, freq: map<string, nat>)
    requires Keyed(s, freq)
  {
    forall i, j :: 0 <= i < j < |s| ==> freq[s[i]] >= freq[s[j]]
  }

  /** Places `x` after every entry whose count is at least its own. */
  function Insert(sorted: seq<string>, x: string, freq: map<string, nat>): (r: seq<string>)
    requires Keyed(sorted, freq) && x in freq
    ensures forall y :: y in r <==> y in sorted || y == x
  {
    if sorted == [] then [x]
    else if freq[sorted[0]] >= freq[x] then
      assert sorted == [sorted[0]] + sorted[1..];
      [sorted[0]] + Insert(sorted[1..], x, freq)
    else
      [x] + sorted
  }

  lemma {:induction false} InsertMultiset(sorted: seq<string>, x: string, freq: map<string, nat>)
    requires Keyed(sorted, freq) && x in freq
    ensures multiset(Insert(sorted, x, freq)) == multiset(sorted) + multiset{x}
    decreases |sorted|
  {
    if sorted != [] && freq[sorted[0]] >= freq[x] {
      InsertMultiset(sorted[1..], x, freq);
      assert sorted == [sorted[0]] + sorted[1..];
    }
  }

  /** Inserting into a descending list keeps it descending. */
  lemma {:induction false} InsertDescending(sorted: seq<string>, x: string, freq: map<string, nat>)
    requires Keyed(sorted, freq) && x in freq && Descending(sorted, freq)
    ensures Keyed(Insert(sorted, x, freq), freq)
    ensures Descending(Insert(sorted, x, freq), freq)
    decreases |sorted|
  {
    if sorted != [] && freq[sorted[0]] >= freq[x] {
      var rest := Insert(sorted[1..], x, freq);
      InsertDescending(sorted[1..], x, freq);
      var r := [sorted[0]] + rest;
      assert Insert(sorted, x, freq) == r;
      forall i, j | 0 <= i < j < |r| ensures freq[r[i]] >= freq[r[j]] {
        if i == 0 {
          assert r[j] == rest[j - 1];
          assert r[j] in rest;
          if r[j] != x {
            var m :| 0 <= m < |sorted[1..]| && sorted[1..][m] == r[j];
            assert sorted[1 + m] == r[j];
          }
        } else {
          assert r[i] == rest[i - 1] && r[j] == rest[j - 1];
        }
      }
    } else if sorted != [] {
      var r := [x] + sorted;
      assert Insert(sorted, x, freq) == r;
      forall i, j | 0 <= i < j < |r| ensures freq[r[i]] >= freq[r[j]] {
        if i == 0 {
          assert r[j] == sorted[j - 1];
        } else {
          assert r[i] == sorted[i - 1] && r[j] == sorted[j - 1];
        }
      }
    }
  }

  /** The stable sort by count, highest first. */
  function SortDesc(keys: seq<string>, freq: map<string, nat>): (r: seq<string>)
    requires Keyed(keys, freq)
    ensures multiset(r) == multiset(keys)
    ensures Keyed(r, freq)
    ensures Descending(r, freq)
  {
    if keys == [] then []
    else
      assert keys == keys[..|keys| - 1] + [keys[|keys| - 1]];
      var sorted := SortDesc(keys[..|keys| - 1], freq);
      InsertDescending(sorted, keys[|keys| - 1], freq);
      InsertMultiset(sorted, keys[|keys| - 1], freq);
      Insert(sorted, keys[|keys| - 1], freq)
  }

  /** The entries of `s` whose count is `c`, in their order in `s`. */
  function WithCount(s: seq<string>, freq: map<string, nat>, c: nat): seq<string>
  {
    if s == [] then []
    else (if s[0] in freq && freq[s[0]] == c then [s[0]] else []) + WithCount(s[1..], freq, c)
  }

  lemma {:induction false} WithCountInsert(sorted: seq<string>, x: string, freq: map<string, nat>, c: nat)
    requires Keyed(sorted, freq) && x in freq && Descending(sorted, freq)
    ensures WithCount(Insert(sorted, x, freq), freq, c)
         == WithCount(sorted, freq, c) + (if freq[x] == c then [x] else [])
    decreases |sorted|
  {
    InsertDescending(sorted, x, freq);
    if sorted == [] {
    } else if freq[sorted[0]] >= freq[x] {
      InsertDescending(sorted[1..], x, freq);
      WithCountInsert(sorted[1..], x, freq, c);
      var r := Insert(sorted, x, freq);
      assert r[0] == sorted[0] && r[1..] == Insert(sorted[1..], x, freq);
    } else {
      WithCountBelow(sorted, freq, freq[x]);
      if freq[x] == c {
        assert WithCount(sorted, freq, c) == [];
      }
    }
  }

  /** No entry of a descending list headed below `c` has count `c`. */
  lemma {:induction false} WithCountBelow(s: seq<string>, freq: map<string, nat>, c: nat)
    requires Keyed(s, freq) && Descending(s, freq)
    requires s != [] && freq[s[0]] < c
    ensures WithCount(s, freq, c) == []
    decreases |s|
  {
    if |s| > 1 {
      WithCountBelow(s[1..], freq, c);
    }
  }

  lemma {:induction false} WithCountSnoc(s: seq<string>, x: string, freq: map<string, nat>, c: nat)
    requires Keyed(s, freq) && x in freq
    ensures WithCount(s + [x], freq, c) == WithCount(s, freq, c) + (if freq[x] == c then [x] else [])
    decreases |s|
  {
    if s != [] {
      assert (s + [x])[1..] == s[1..] + [x];
      WithCountSnoc(s[1..], x, freq, c);
    }
  }

  /** Stability: entries with equal counts keep their relative order. */
  lemma {:induction false} SortDescStable(keys: seq<string>, freq: map<string, nat>, c: nat)
    requires Keyed(keys, freq)
    ensures WithCount(SortDesc(keys, freq), freq, c) == WithCount(keys, freq, c)
    decreases |keys|
  {
    if keys != [] {
      var k' := keys[..|keys| - 1];
      var x := keys[|keys| - 1];
      assert keys == k' + [x];
      SortDescStable(k', freq, c);
      WithCountInsert(SortDesc(k', freq), x, freq, c);
      WithCountSnoc(k', x, freq, c);
    }
  }
}
