/**
 * `DataFrame.merge(other, on='cp_ville')` with the default inner join, on
 * tables given as rows of (key, value).
 */
module Merge {

  /** The key column of a table. */
  function KeysOf<T>(t: seq<(string, T)>): (ks: seq<string>)
    ensures |ks| == |t|
    ensures forall i :: 0 <= i < |t| ==> ks[i] == t[i].0
  {
    seq(|t|, i requires 0 <= i < |t| => t[i].0)
  }

  /** No key occurs on two rows. */
  predicate UniqueKeys<T>(t: seq<(string, T)>)
  {
    forall i, j :: 0 <= i < j < |t| ==> t[i].0 != t[j].0
  }

  /** The values of the rows whose key is `k`, in order. */
  function Matches<T>(t: seq<(string, T)>, k: string): (vs: seq<T>)
    ensures |vs| <= |t|
  {
    if |t| == 0 then []
    else (if t[0].0 == k then [t[0].1] else []) + Matches(t[1..], k)
  }

  /** The value on the first row whose key is `k`. */
  function Lookup<T>(t: seq<(string, T)>, k: string): T
    requires k in KeysOf(t)
  {
    if t[0].0 == k then t[0].1
    else
      assert k in KeysOf(t[1..]) by {
        var i :| 0 <= i < |t| && KeysOf(t)[i] == k;
        assert KeysOf(t[1..])[i - 1] == k;
      }
      Lookup(t[1..], k)
  }

  /**
   * Inner join: for each left row, in order, one output row per right row
   * with the same key; a left key absent from the right disappears.
   */
  function InnerJoin<A, B>(left: seq<(string, A)>, right: seq<(string, B)>): seq<(string, (A, B))>
  {
    if |left| == 0 then []
    else
      var m := Matches(right, left[0].0);
      seq(|m|, j requires 0 <= j < |m| => (left[0].0, (left[0].1, m[j]))) + InnerJoin(left[1..], right)
  }

  /** A key that is on exactly one row matches exactly that row's value. */
  lemma {:induction false} MatchesUnique<T>(t: seq<(string, T)>, k: string)
    requires UniqueKeys(t) && k in KeysOf(t)
    ensures Matches(t, k) == [Lookup(t, k)]
  {
    if t[0].0 == k {
      MatchesAbsent(t[1..], k);
    } else {
      var i :| 0 <= i < |t| && KeysOf(t)[i] == k;
      assert KeysOf(t[1..])[i - 1] == k;
      MatchesUnique(t[1..], k);
    }
  }

  /** A key on no row matches nothing. */
  lemma {:induction false} MatchesAbsent<T>(t: seq<(string, T)>, k: string)
    requires forall i :: 0 <= i < |t| ==> t[i].0 != k
    ensures Matches(t, k) == []
  {
    if |t| > 0 {
      assert forall i :: 0 <= i < |t[1..]| ==> t[1..][i] == t[i + 1];
      MatchesAbsent(t[1..], k);
    }
  }

  /**
   * Joining on a right table with unique keys that holds every left key:
   * one row per left row, in left order, carrying the right row's value.
   */
  lemma {:induction false} JoinOnUniqueKeys<A, B>(left: seq<(string, A)>, right: seq<(string, B)>)
    requires UniqueKeys(right)
    requires forall i :: 0 <= i < |left| ==> left[i].0 in KeysOf(right)
    ensures |InnerJoin(left, right)| == |left|
    ensures forall i :: 0 <= i < |left| ==>
              InnerJoin(left, right)[i] == (left[i].0, (left[i].1, Lookup(right, left[i].0)))
  {
    if |left| > 0 {
      MatchesUnique(right, left[0].0);
      assert forall i :: 0 <= i < |left[1..]| ==> left[1..][i] == left[i + 1];
      JoinOnUniqueKeys(left[1..], right);
    }
  }

  /** In a table with unique keys, looking up a row's key finds that row. */
  lemma {:induction false} LookupUnique<T>(t: seq<(string, T)>, i: nat)
    requires UniqueKeys(t) && i < |t|
    ensures t[i].0 in KeysOf(t) && Lookup(t, t[i].0) == t[i].1
  {
    assert KeysOf(t)[i] == t[i].0;
    if i > 0 {
      assert t[0].0 != t[i].0;
      assert t[1..][i - 1] == t[i];
      LookupUnique(t[1..], i - 1);
    }
  }

  /**
   * Two tables with the same keys on the same rows, the right one with unique
   * keys: the join pairs row `i` with row `i`.
   */
  lemma JoinAligned<A, B>(left: seq<(string, A)>, right: seq<(string, B)>)
    requires KeysOf(left) == KeysOf(right) && UniqueKeys(right)
    ensures |InnerJoin(left, right)| == |left|
    ensures forall i :: 0 <= i < |left| ==> InnerJoin(left, right)[i] == (left[i].0, (left[i].1, right[i].1))
  {
    forall i | 0 <= i < |left| ensures left[i].0 in KeysOf(right) && Lookup(right, left[i].0) == right[i].1 {
      assert left[i].0 == KeysOf(left)[i] == KeysOf(right)[i] == right[i].0;
      LookupUnique(right, i);
    }
    JoinOnUniqueKeys(left, right);
  }

  /**
   * Three successive joins of four tables with the same keys on the same
   * rows, the last three with unique keys: row `i` of each, paired up.
   */
  lemma JoinFourAligned<A, B, C, D>(a: seq<(string, A)>, b: seq<(string, B)>, c: seq<(string, C)>, d: seq<(string, D)>)
    requires KeysOf(a) == KeysOf(b) == KeysOf(c) == KeysOf(d)
    requires UniqueKeys(b) && UniqueKeys(c) && UniqueKeys(d)
    ensures var merged := InnerJoin(InnerJoin(InnerJoin(a, b), c), d);
      |merged| == |a|
      && forall i :: 0 <= i < |a| ==> merged[i] == (a[i].0, (((a[i].1, b[i].1), c[i].1), d[i].1))
  {
    JoinAligned(a, b);
    var j1 := InnerJoin(a, b);
    assert KeysOf(j1) == KeysOf(a);
    JoinAligned(j1, c);
    var j2 := InnerJoin(j1, c);
    assert KeysOf(j2) == KeysOf(a);
    JoinAligned(j2, d);
  }
}
