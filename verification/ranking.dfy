/** Leaderboards: `series.sort_values(ascending=False).head(n)` over the
    result of a group-by, for any value type ordered by a total preorder
    (integer sums, fractional rates). pandas' default sort is not stable, so
    the order among equal values is left open; everything else is fixed. */
module Ranking {

  ghost predicate TotalPreorder<V(!new)>(le: (V, V) -> bool) {
    && (forall a, b :: le(a, b) || le(b, a))
    && (forall a, b, c :: le(a, b) && le(b, c) ==> le(a, c))
  }

  /** Values never increase along `s`. */
  ghost predicate Descending<K, V>(s: seq<(K, V)>, le: (V, V) -> bool) {
    forall i, j :: 0 <= i < j < |s| ==> le(s[j].1, s[i].1)
  }

  /** No key is listed twice. */
  predicate DistinctKeys<K(==), V>(s: seq<(K, V)>) {
    forall i, j :: 0 <= i < j < |s| ==> s[i].0 != s[j].0
  }

  /** The keys listed in `s`. */
  function Listed<K(==), V(==)>(s: seq<(K, V)>): set<K> {
    set e | e in s :: e.0
  }

  function Min(a: nat, b: nat): nat {
    if a < b then a else b
  }

  /** Every entry of `s` is a key of `m` paired with its own value. */
  ghost predicate EntriesOf<K, V>(s: seq<(K, V)>, m: map<K, V>) {
    forall i :: 0 <= i < |s| ==> s[i].0 in m && s[i].1 == m[s[i].0]
  }

  /** `board` is what head(n) of the descending sort of `m` can be: as many
      entries as allowed, each a key of `m` with its own value, values not
      increasing, and no key left out worth more than the last one shown. */
  ghost predicate IsLeaderboard<K, V>(board: seq<(K, V)>, m: map<K, V>, n: nat, le: (V, V) -> bool) {
    && |board| == Min(n, |m|)
    && DistinctKeys(board)
    && EntriesOf(board, m)
    && Descending(board, le)
    && (forall k :: k in m && k !in Listed(board) && |board| > 0 ==> le(m[k], board[|board| - 1].1))
  }

  /** `e` placed after every entry worth at least as much. */
  function InsertDescending<K(==), V(==)>(e: (K, V), s: seq<(K, V)>, le: (V, V) -> bool): (r: seq<(K, V)>)
    ensures |r| == |s| + 1
    ensures multiset(r) == multiset(s) + multiset{e}
  {
    if s == [] then [e]
    else if !le(e.1, s[0].1) then [e] + s
    else
      assert s == [s[0]] + s[1..];
      [s[0]] + InsertDescending(e, s[1..], le)
  }

  lemma {:induction false} InsertKeepsDescending<K, V(!new)>(e: (K, V), s: seq<(K, V)>, le: (V, V) -> bool)
    requires TotalPreorder(le)
    requires Descending(s, le)
    ensures Descending(InsertDescending(e, s, le), le)
  {
    if s != [] {
      if !le(e.1, s[0].1) {
        var r := [e] + s;
        assert le(s[0].1, e.1);
        forall i, j | 0 <= i < j < |r|
          ensures le(r[j].1, r[i].1)
        {
          assert r[j] == s[j - 1];
          if i == 0 {
            if j > 1 {
              assert le(s[j - 1].1, s[0].1);
            }
          } else {
            assert r[i] == s[i - 1];
          }
        }
      } else {
        InsertKeepsDescending(e, s[1..], le);
        var rest := InsertDescending(e, s[1..], le);
        var r := [s[0]] + rest;
        forall i, j | 0 <= i < j < |r|
          ensures le(r[j].1, r[i].1)
        {
          assert r[j] == rest[j - 1];
          if i == 0 {
            assert rest[j - 1] in multiset(rest);
            if rest[j - 1] != e {
              assert rest[j - 1] in multiset(s[1..]);
              var k :| 0 <= k < |s[1..]| && s[1..][k] == rest[j - 1];
              assert s[k + 1] == rest[j - 1];
            }
          } else {
            assert r[i] == rest[i - 1];
          }
        }
      }
    }
  }

  /** Each entry of the result is the inserted one or was already there. */
  lemma {:induction false} InsertEntries<K, V>(e: (K, V), s: seq<(K, V)>, le: (V, V) -> bool)
    ensures forall i :: 0 <= i < |InsertDescending(e, s, le)| ==>
              InsertDescending(e, s, le)[i] == e || InsertDescending(e, s, le)[i] in s
    ensures Listed(InsertDescending(e, s, le)) == Listed(s) + {e.0}
  {
    var r := InsertDescending(e, s, le);
    forall i | 0 <= i < |r|
      ensures r[i] == e || r[i] in s
    {
      assert r[i] in multiset(r);
    }
    forall x | x in s
      ensures x in r
    {
      assert x in multiset(s);
      assert x in multiset(r);
    }
    assert e in multiset(r);
  }

  /** Inserting an entry under a new key keeps the keys distinct. */
  lemma {:induction false} InsertNewKey<K, V>(e: (K, V), s: seq<(K, V)>, le: (V, V) -> bool)
    requires DistinctKeys(s)
    requires e.0 !in Listed(s)
    ensures DistinctKeys(InsertDescending(e, s, le))
  {
    if s != [] {
      if !le(e.1, s[0].1) {
        var r := [e] + s;
        forall i, j | 0 <= i < j < |r|
          ensures r[i].0 != r[j].0
        {
          assert r[j] == s[j - 1];
          if i > 0 {
            assert r[i] == s[i - 1];
          } else {
            assert s[j - 1] in s;
          }
        }
      } else {
        InsertNewKey(e, s[1..], le);
        InsertEntries(e, s[1..], le);
        var rest := InsertDescending(e, s[1..], le);
        var r := [s[0]] + rest;
        forall i, j | 0 <= i < j < |r|
          ensures r[i].0 != r[j].0
        {
          assert r[j] == rest[j - 1];
          if i > 0 {
            assert r[i] == rest[i - 1];
          } else if rest[j - 1] != e {
            var k :| 0 <= k < |s[1..]| && s[1..][k] == rest[j - 1];
            assert s[k + 1] == rest[j - 1];
          } else {
            assert s[0] in s;
          }
        }
      }
    }
  }

  /** The first n entries of a full descending listing of `m` form a leaderboard. */
  lemma PrefixIsLeaderboard<K, V(!new)>(sorted: seq<(K, V)>, m: map<K, V>, n: nat, le: (V, V) -> bool)
    requires DistinctKeys(sorted) && EntriesOf(sorted, m) && Descending(sorted, le)
    requires Listed(sorted) == m.Keys && |sorted| == |m|
    ensures IsLeaderboard(sorted[..Min(n, |sorted|)], m, n, le)
    ensures |m| <= n ==> Listed(sorted[..Min(n, |sorted|)]) == m.Keys
  {
    var board := sorted[..Min(n, |sorted|)];
    forall k | k in m && k !in Listed(board) && |board| > 0
      ensures le(m[k], board[|board| - 1].1)
    {
      var e :| e in sorted && e.0 == k;
      var i :| 0 <= i < |sorted| && sorted[i] == e;
    }
    if |m| <= n {
      assert board == sorted;
    }
  }

  /** One step of the listing: the entry of a key not yet listed goes in its place. */
  lemma InsertStep<K, V(!new)>(k: K, sorted: seq<(K, V)>, rest: set<K>, m: map<K, V>, le: (V, V) -> bool)
    requires TotalPreorder(le)
    requires k in rest && rest <= m.Keys
    requires Listed(sorted) == m.Keys - rest
    requires DistinctKeys(sorted) && EntriesOf(sorted, m) && Descending(sorted, le)
    ensures var next := InsertDescending((k, m[k]), sorted, le);
            && Listed(next) == m.Keys - (rest - {k})
            && DistinctKeys(next) && EntriesOf(next, m) && Descending(next, le)
  {
    InsertKeepsDescending((k, m[k]), sorted, le);
    InsertNewKey((k, m[k]), sorted, le);
    InsertEntries((k, m[k]), sorted, le);
  }

  /** The n entries of `m` with the largest values, largest first. */
  method TopN<K(==), V(==,!new)>(m: map<K, V>, n: nat, le: (V, V) -> bool) returns (board: seq<(K, V)>)
    requires TotalPreorder(le)
    ensures IsLeaderboard(board, m, n, le)
    ensures |m| <= n ==> Listed(board) == m.Keys
  {
    var sorted: seq<(K, V)> := [];
    var rest := m.Keys;
    while rest != {}
      invariant rest <= m.Keys
      invariant Listed(sorted) == m.Keys - rest
      invariant DistinctKeys(sorted)
      invariant EntriesOf(sorted, m)
      invariant Descending(sorted, le)
      invariant |sorted| + |rest| == |m.Keys|
      decreases rest
    {
      var k :| k in rest;
      var next := InsertDescending((k, m[k]), sorted, le);
      InsertStep(k, sorted, rest, m, le);
      rest := rest - {k};
      sorted := next;
    }
    assert |m| == |m.Keys|;
    PrefixIsLeaderboard(sorted, m, n, le);
    board := sorted[..Min(n, |sorted|)];
  }
}
