/** Sequence building blocks shared by the cleaner and the reports: boolean
    selection that keeps row order (a pandas mask), subsequences, sums,
    first-occurrence de-duplication and per-key sums. */
module Seqs {

  /** The predicate that holds exactly where `p` does not. */
  function Negate<T>(p: T -> bool): T -> bool {
    x => !p(x)
  }

  /** The rows of `s` satisfying `p`, in their original order; every copy
      of a passing row is kept and every copy of a failing one dropped. */
  function Filter<T(==)>(s: seq<T>, p: T -> bool): (r: seq<T>)
    ensures |r| <= |s|
    ensures forall i :: 0 <= i < |r| ==> r[i] in s && p(r[i])
    ensures forall i :: 0 <= i < |s| && p(s[i]) ==> s[i] in r
  {
    if s == [] then []
    else if p(s[0]) then [s[0]] + Filter(s[1..], p)
    else Filter(s[1..], p)
  }

  /** Each value occurs in the filtered rows exactly as often as in `s`
      when it passes, and not at all otherwise. */
  lemma {:induction false} FilterCounts<T>(s: seq<T>, p: T -> bool)
    ensures forall y :: multiset(Filter(s, p))[y] == if p(y) then multiset(s)[y] else 0
  {
    if s != [] {
      FilterCounts(s[1..], p);
      assert s == [s[0]] + s[1..];
      assert multiset(s) == multiset{s[0]} + multiset(s[1..]);
      if p(s[0]) {
        assert multiset(Filter(s, p)) == multiset{s[0]} + multiset(Filter(s[1..], p));
      }
    }
  }

  /** Filtering a table with one more row at the end. */
  lemma {:induction false} FilterAppend<T>(s: seq<T>, x: T, p: T -> bool)
    ensures Filter(s + [x], p) == Filter(s, p) + (if p(x) then [x] else [])
  {
    var tail := if p(x) then [x] else [];
    if s == [] {
      assert s + [x] == [x] && [x][1..] == [];
    } else {
      var t := s + [x];
      assert t[0] == s[0] && t[1..] == s[1..] + [x];
      FilterAppend(s[1..], x, p);
      if p(s[0]) {
        calc {
          Filter(t, p);
          [s[0]] + Filter(s[1..] + [x], p);
          [s[0]] + (Filter(s[1..], p) + tail);
          ([s[0]] + Filter(s[1..], p)) + tail;
        }
      } else {
        assert Filter(t, p) == Filter(s[1..] + [x], p);
      }
    }
  }

  /** The sum over a table with one more row at the end. */
  lemma {:induction false} SumAppend<T>(s: seq<T>, x: T, f: T -> int)
    ensures Sum(s + [x], f) == Sum(s, f) + f(x)
  {
    if s != [] {
      assert (s + [x])[1..] == s[1..] + [x];
      SumAppend(s[1..], x, f);
    }
  }

  /** 1 where `p` holds, 0 elsewhere: a boolean column read as numbers. */
  function Indicator<T>(p: T -> bool): T -> int {
    x => if p(x) then 1 else 0
  }

  /** Counting the rows that pass is summing the boolean column. */
  lemma {:induction false} CountIsIndicatorSum<T>(s: seq<T>, p: T -> bool)
    ensures |Filter(s, p)| == Sum(s, Indicator(p))
  {
    if s != [] {
      CountIsIndicatorSum(s[1..], p);
    }
  }

  /** The distinct keys of a table with one more row at the end. */
  lemma KeysOfAppend<T, K>(s: seq<T>, x: T, key: T -> K)
    ensures KeysOf(s + [x], key) == KeysOf(s, key) + {key(x)}
  {
    assert x in s + [x];
    forall y | y in s
      ensures y in s + [x]
    {
    }
  }

  /** One more row raises the number of distinct keys by one exactly when
      its key is new. */
  lemma KeysOfAppendCard<T, K>(s: seq<T>, x: T, key: T -> K)
    ensures |KeysOf(s + [x], key)| == |KeysOf(s, key)| + (if exists y :: y in s && key(y) == key(x) then 0 else 1)
  {
    KeysOfAppend(s, x, key);
    if exists y :: y in s && key(y) == key(x) {
      var y :| y in s && key(y) == key(x);
      assert key(x) in KeysOf(s, key);
      assert KeysOf(s, key) + {key(x)} == KeysOf(s, key);
    } else {
      assert key(x) !in KeysOf(s, key);
    }
  }

  /** `a` can be obtained from `b` by deleting elements. */
  predicate IsSubseq<T(==)>(a: seq<T>, b: seq<T>)
    decreases |b|
  {
    if b == [] then a == []
    else IsSubseq(a, b[1..]) || (a != [] && a[0] == b[0] && IsSubseq(a[1..], b[1..]))
  }

  /** No element occurs twice. */
  predicate Distinct<T(==)>(s: seq<T>) {
    forall i, j :: 0 <= i < j < |s| ==> s[i] != s[j]
  }

  /** The set of elements of `s`. */
  function Elements<T(==)>(s: seq<T>): set<T> {
    set x | x in s
  }

  /** The sum of `f` over the rows of `s`. */
  function Sum<T>(s: seq<T>, f: T -> int): int {
    if s == [] then 0 else f(s[0]) + Sum(s[1..], f)
  }

  /** Row is in the group whose key is `k`. */
  function KeyIs<T, K(==)>(key: T -> K, k: K): T -> bool {
    x => key(x) == k
  }

  /** The distinct values `key` takes over `s`. */
  function KeysOf<T(==), K>(s: seq<T>, key: T -> K): set<K> {
    set x | x in s :: key(x)
  }

  lemma {:induction false} FilterIsSubseq<T>(s: seq<T>, p: T -> bool)
    ensures IsSubseq(Filter(s, p), s)
  {
    if s != [] {
      FilterIsSubseq(s[1..], p);
      if p(s[0]) {
        assert Filter(s, p)[1..] == Filter(s[1..], p);
      }
    }
  }

  lemma {:induction false} SubseqReflexive<T>(s: seq<T>)
    ensures IsSubseq(s, s)
  {
    if s != [] {
      SubseqReflexive(s[1..]);
    }
  }

  lemma {:induction false} SubseqTransitive<T>(a: seq<T>, b: seq<T>, c: seq<T>)
    requires IsSubseq(a, b) && IsSubseq(b, c)
    ensures IsSubseq(a, c)
    decreases |c|
  {
    if c != [] {
      if IsSubseq(b, c[1..]) {
        SubseqTransitive(a, b, c[1..]);
      } else if IsSubseq(a, b[1..]) {
        SubseqTransitive(a, b[1..], c[1..]);
      } else {
        SubseqTransitive(a[1..], b[1..], c[1..]);
      }
    }
  }

  lemma {:induction false} SubseqLength<T>(a: seq<T>, b: seq<T>)
    requires IsSubseq(a, b)
    ensures |a| <= |b|
    ensures |a| == |b| ==> a == b
    decreases |b|
  {
    if b != [] {
      if a != [] && a[0] == b[0] && IsSubseq(a[1..], b[1..]) {
        SubseqLength(a[1..], b[1..]);
        if |a| == |b| {
          assert a == [a[0]] + a[1..];
        }
      } else {
        SubseqLength(a, b[1..]);
      }
    }
  }

  /** A filter that nothing passes selects nothing. */
  lemma FilterNone<T>(s: seq<T>, p: T -> bool)
    requires forall x :: x in s ==> !p(x)
    ensures Filter(s, p) == []
  {
  }

  /** A filter that everything passes keeps everything. */
  lemma {:induction false} FilterAll<T>(s: seq<T>, p: T -> bool)
    requires forall x :: x in s ==> p(x)
    ensures Filter(s, p) == s
  {
    if s != [] {
      assert s[0] in s;
      assert forall x :: x in s[1..] ==> x in s;
      FilterAll(s[1..], p);
      assert s == [s[0]] + s[1..];
    }
  }

  /** Filtering twice by the same predicate changes nothing the second time. */
  lemma FilterTwice<T>(s: seq<T>, p: T -> bool)
    ensures Filter(Filter(s, p), p) == Filter(s, p)
  {
    FilterAll(Filter(s, p), p);
  }

  /** A group whose key occurs in `s` has at least one row. */
  lemma GroupNonEmpty<T, K>(s: seq<T>, key: T -> K, k: K)
    requires k in KeysOf(s, key)
    ensures |Filter(s, KeyIs(key, k))| > 0
  {
    var x :| x in s && key(x) == k;
    assert x in Filter(s, KeyIs(key, k));
  }

  /** Splitting rows by a predicate splits their sum. */
  lemma {:induction false} SumSplit<T>(s: seq<T>, f: T -> int, p: T -> bool)
    ensures Sum(s, f) == Sum(Filter(s, p), f) + Sum(Filter(s, Negate(p)), f)
  {
    if s != [] {
      SumSplit(s[1..], f, p);
      if p(s[0]) {
        assert Filter(s, p) == [s[0]] + Filter(s[1..], p);
        assert ([s[0]] + Filter(s[1..], p))[1..] == Filter(s[1..], p);
      } else {
        assert Filter(s, Negate(p)) == [s[0]] + Filter(s[1..], Negate(p));
        assert ([s[0]] + Filter(s[1..], Negate(p)))[1..] == Filter(s[1..], Negate(p));
      }
    }
  }

  /** The number of distinct values a row attribute takes is at most the
      number of rows, and positive exactly when there are rows. */
  lemma {:induction false} KeysOfBound<T, K>(s: seq<T>, key: T -> K)
    ensures |KeysOf(s, key)| <= |s|
    ensures |KeysOf(s, key)| == 0 <==> s == []
  {
    if s != [] {
      KeysOfBound(s[1..], key);
      assert KeysOf(s, key) == {key(s[0])} + KeysOf(s[1..], key);
    }
  }

  /** A distinct sequence has as many elements as its element set. */
  lemma {:induction false} DistinctCard<T>(s: seq<T>)
    requires Distinct(s)
    ensures |Elements(s)| == |s|
  {
    if s != [] {
      DistinctCard(s[1..]);
      assert Elements(s) == {s[0]} + Elements(s[1..]);
      assert s[0] !in Elements(s[1..]);
    }
  }

  // ---------------------------------------------------------------------------
  // De-duplication keeping the first occurrence (DataFrame.drop_duplicates)

  /** The rows of `s` not in `seen`, each kept at its first occurrence. */
  function DedupFrom<T(==)>(s: seq<T>, seen: set<T>): (r: seq<T>)
    ensures forall i :: 0 <= i < |r| ==> r[i] in s && r[i] !in seen
    ensures forall i :: 0 <= i < |s| && s[i] !in seen ==> s[i] in r
    ensures Distinct(r)
    ensures IsSubseq(r, s)
  {
    if s == [] then []
    else if s[0] in seen then DedupFrom(s[1..], seen)
    else
      var rest := DedupFrom(s[1..], seen + {s[0]});
      assert ([s[0]] + rest)[1..] == rest;
      [s[0]] + rest
  }

  /** `s` with every row equal to an earlier row dropped. */
  function Dedup<T(==)>(s: seq<T>): seq<T> {
    DedupFrom(s, {})
  }

  /** Appending a row keeps it exactly when it equals no earlier row: this
      pins down the keep-first order of the result. */
  lemma {:induction false} DedupFromSnoc<T>(s: seq<T>, seen: set<T>, x: T)
    ensures DedupFrom(s + [x], seen) == DedupFrom(s, seen) + (if x in s || x in seen then [] else [x])
  {
    if s != [] {
      assert (s + [x])[0] == s[0];
      assert (s + [x])[1..] == s[1..] + [x];
      if s[0] in seen {
        DedupFromSnoc(s[1..], seen, x);
        assert x in s[1..] ==> x in s;
      } else {
        DedupFromSnoc(s[1..], seen + {s[0]}, x);
        assert x in s <==> x in s[1..] || x == s[0];
      }
    } else {
      assert [] + [x] == [x];
    }
  }

  lemma DedupSnoc<T>(s: seq<T>, x: T)
    ensures Dedup(s + [x]) == Dedup(s) + (if x in s then [] else [x])
  {
    DedupFromSnoc(s, {}, x);
  }

  /** A sequence with no repeats (none of them already seen) is left as it is. */
  lemma {:induction false} DedupFromDistinct<T>(s: seq<T>, seen: set<T>)
    requires Distinct(s)
    requires forall x :: x in s ==> x !in seen
    ensures DedupFrom(s, seen) == s
  {
    if s != [] {
      assert s[0] in s;
      assert forall x :: x in s[1..] ==> x in s && x != s[0];
      DedupFromDistinct(s[1..], seen + {s[0]});
      assert s == [s[0]] + s[1..];
    }
  }

  /** De-duplicating twice removes nothing the second time. */
  lemma DedupIdempotent<T>(s: seq<T>)
    ensures Dedup(Dedup(s)) == Dedup(s)
  {
    DedupFromDistinct(Dedup(s), {});
  }

  /** The result has one row per distinct row of the input. */
  lemma DedupLength<T>(s: seq<T>)
    ensures |Dedup(s)| == |Elements(s)|
  {
    DistinctCard(Dedup(s));
    assert Elements(Dedup(s)) == Elements(s);
  }

  /** Nothing is removed exactly when the input has no repeated row. */
  lemma DedupKeepsAllIffDistinct<T>(s: seq<T>)
    ensures |Dedup(s)| == |s| <==> Distinct(s)
  {
    if Distinct(s) {
      DedupFromDistinct(s, {});
    }
    SubseqLength(Dedup(s), s);
  }

  // ---------------------------------------------------------------------------
  // Per-key sums: a group-by is a partition of the rows

  /** For each key of `ks` in turn, the sum of `f` over that key's rows. */
  function SumPerKey<T(==), K(==)>(s: seq<T>, key: T -> K, f: T -> int, ks: seq<K>): int {
    if ks == [] then 0
    else Sum(Filter(s, KeyIs(key, ks[0])), f) + SumPerKey(s, key, f, ks[1..])
  }

  lemma {:induction false} SumPerKeyEmpty<T, K>(key: T -> K, f: T -> int, ks: seq<K>)
    ensures SumPerKey([], key, f, ks) == 0
  {
    if ks != [] {
      SumPerKeyEmpty(key, f, ks[1..]);
    }
  }

  /** Prepending a row adds its value once, under its own key, when that key is listed. */
  lemma {:induction false} SumPerKeyCons<T, K>(x: T, s: seq<T>, key: T -> K, f: T -> int, ks: seq<K>)
    requires Distinct(ks)
    ensures SumPerKey([x] + s, key, f, ks) == SumPerKey(s, key, f, ks) + (if key(x) in ks then f(x) else 0)
  {
    if ks != [] {
      assert ([x] + s)[0] == x && ([x] + s)[1..] == s;
      assert Distinct(ks[1..]);
      SumPerKeyCons(x, s, key, f, ks[1..]);
      if key(x) == ks[0] {
        assert Filter([x] + s, KeyIs(key, ks[0])) == [x] + Filter(s, KeyIs(key, ks[0]));
        assert ([x] + Filter(s, KeyIs(key, ks[0])))[1..] == Filter(s, KeyIs(key, ks[0]));
        assert key(x) !in ks[1..];
      } else {
        assert key(x) in ks <==> key(x) in ks[1..];
      }
    }
  }

  /** Summing every group of a partition that covers all rows gives the total. */
  lemma {:induction false} SumPerKeyCovers<T, K>(s: seq<T>, key: T -> K, f: T -> int, ks: seq<K>)
    requires Distinct(ks)
    requires forall x :: x in s ==> key(x) in ks
    ensures SumPerKey(s, key, f, ks) == Sum(s, f)
  {
    if s == [] {
      SumPerKeyEmpty(key, f, ks);
    } else {
      forall x | x in s[1..]
        ensures key(x) in ks
      {
        assert x in s;
      }
      SumPerKeyCovers(s[1..], key, f, ks);
      assert s == [s[0]] + s[1..];
      SumPerKeyCons(s[0], s[1..], key, f, ks);
      assert key(s[0]) in ks by {
        assert s[0] in s;
      }
    }
  }

  // ---------------------------------------------------------------------------
  // Ascending order of integer group keys (pandas sorts group keys)

  /** Strictly increasing, hence also free of repeats. */
  predicate StrictlyIncreasing(s: seq<int>) {
    forall i, j :: 0 <= i < j < |s| ==> s[i] < s[j]
  }

  /** `x` put into its place in `s`, unless already there. */
  function InsertAscending(x: int, s: seq<int>): (r: seq<int>)
    requires StrictlyIncreasing(s)
    ensures StrictlyIncreasing(r)
    ensures forall y :: y in r <==> y in s || y == x
  {
    if s == [] then [x]
    else if x < s[0] then [x] + s
    else if x == s[0] then s
    else
      var rest := InsertAscending(x, s[1..]);
      AboveHead(s);
      ConsIncreasing(s[0], rest);
      [s[0]] + rest
  }

  lemma AboveHead(s: seq<int>)
    requires StrictlyIncreasing(s) && s != []
    ensures forall y :: y in s[1..] ==> s[0] < y
  {
    forall y | y in s[1..]
      ensures s[0] < y
    {
      var k :| 0 <= k < |s[1..]| && s[1..][k] == y;
      assert s[k + 1] == y;
    }
  }

  lemma ConsIncreasing(a: int, r: seq<int>)
    requires StrictlyIncreasing(r)
    requires forall y :: y in r ==> a < y
    ensures StrictlyIncreasing([a] + r)
  {
    var s := [a] + r;
    forall i, j | 0 <= i < j < |s|
      ensures s[i] < s[j]
    {
      assert s[j] == r[j - 1];
      if i == 0 {
        assert r[j - 1] in r;
      } else {
        assert s[i] == r[i - 1];
      }
    }
  }

  /** The distinct values `key` takes over `s`, in ascending order. */
  function AscendingKeys<T(==)>(s: seq<T>, key: T -> int): (r: seq<int>)
    ensures StrictlyIncreasing(r)
    ensures forall y :: y in r <==> y in KeysOf(s, key)
  {
    if s == [] then []
    else
      var r := InsertAscending(key(s[0]), AscendingKeys(s[1..], key));
      assert KeysOf(s, key) == {key(s[0])} + KeysOf(s[1..], key);
      r
  }
}
