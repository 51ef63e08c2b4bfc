/** Small sequence utilities shared by the model: an optional value, a filter
    that keeps order (the ORM's `.filter(...)` over an ordered table) and a
    predicate for properties that hold between every earlier and later row. */
module Seqs {

  datatype Option<+T> = None | Some(value: T)

  /** The rows of `s` that satisfy `keep`, in their original order. */
  function Filter<T(!new)>(s: seq<T>, keep: T -> bool): (r: seq<T>)
    ensures |r| <= |s|
    ensures forall x :: x in r <==> x in s && keep(x)
  {
    if s == [] then []
    else if keep(s[0]) then [s[0]] + Filter(s[1..], keep)
    else Filter(s[1..], keep)
  }

  /** Every earlier element stands in relation `rel` to every later one. */
  ghost predicate Pairwise<T>(s: seq<T>, rel: (T, T) -> bool)
  {
    forall i, j :: 0 <= i < j < |s| ==> rel(s[i], s[j])
  }

  /** Inequality as a relation, so that `Distinct` is a `Pairwise` property. */
  ghost predicate Differ<T>(a: T, b: T)
  {
    a != b
  }

  /** No element occurs twice. */
  ghost predicate Distinct<T>(s: seq<T>)
  {
    Pairwise(s, Differ)
  }

  /** Filtering keeps a pairwise property: the result is a subsequence. */
  lemma {:induction false} FilterPairwise<T(!new)>(s: seq<T>, keep: T -> bool, rel: (T, T) -> bool)
    ensures Pairwise(s, rel) ==> Pairwise(Filter(s, keep), rel)
  {
    if s != [] && Pairwise(s, rel) {
      var tail := Filter(s[1..], keep);
      FilterPairwise(s[1..], keep, rel);
      if keep(s[0]) {
        var r := [s[0]] + tail;
        forall i, j | 0 <= i < j < |r| ensures rel(r[i], r[j]) {
          if i == 0 {
            assert r[j] == tail[j - 1] && r[j] in s[1..];
            var k :| 0 <= k < |s[1..]| && s[1..][k] == r[j];
            assert s[k + 1] == r[j];
          } else {
            assert r[i] == tail[i - 1] && r[j] == tail[j - 1];
          }
        }
      }
    }
  }

  /** Filtering a sequence whose every element is kept changes nothing. */
  lemma {:induction false} FilterKeepsAll<T(!new)>(s: seq<T>, keep: T -> bool)
    requires forall x :: x in s ==> keep(x)
    ensures Filter(s, keep) == s
  {
    if s != [] {
      FilterKeepsAll(s[1..], keep);
    }
  }

  /** When the only rejected element `e` occurs exactly once, filtering
      removes exactly one row. */
  lemma {:induction false} FilterDropsOne<T(!new)>(s: seq<T>, keep: T -> bool, e: T)
    ensures Distinct(s) && e in s && !keep(e) && (forall x :: x in s && !keep(x) ==> x == e) ==>
            |Filter(s, keep)| == |s| - 1
  {
    if !(Distinct(s) && e in s && !keep(e) && (forall x :: x in s && !keep(x) ==> x == e)) {
    } else if s[0] == e {
      forall x | x in s[1..] ensures keep(x) {
        var k :| 0 <= k < |s[1..]| && s[1..][k] == x;
        assert s[k + 1] == x && s[0] != s[k + 1];
      }
      FilterKeepsAll(s[1..], keep);
    } else {
      assert e in s[1..];
      assert Distinct(s[1..]) by {
        forall i, j | 0 <= i < j < |s[1..]| ensures s[1..][i] != s[1..][j] {
          assert s[1..][i] == s[i + 1] && s[1..][j] == s[j + 1];
        }
      }
      FilterDropsOne(s[1..], keep, e);
    }
  }
}
