/** Array.prototype.filter on sequences, and the facts about it the model relies on. */
module Seqs {
  /** The elements that satisfy `keep`, in their order. */
  function Filter<T>(s: seq<T>, keep: T -> bool): (r: seq<T>)
    ensures |r| <= |s|
    ensures forall i :: 0 <= i < |r| ==> r[i] in s && keep(r[i])
    ensures forall i :: 0 <= i < |s| && keep(s[i]) ==> s[i] in r
    decreases |s|
  {
    if |s| == 0 then []
    else
      var init := Filter(s[..|s| - 1], keep);
      assert s == s[..|s| - 1] + [s[|s| - 1]];
      if keep(s[|s| - 1]) then init + [s[|s| - 1]] else init
  }

  /** Filtering one more element. */
  lemma FilterSnoc<T>(s: seq<T>, x: T, keep: T -> bool)
    ensures keep(x) ==> Filter(s + [x], keep) == Filter(s, keep) + [x]
    ensures !keep(x) ==> Filter(s + [x], keep) == Filter(s, keep)
  {
    assert (s + [x])[..|s|] == s;
  }

  /** Filtering a concatenation filters each part. */
  lemma {:induction false} FilterAppend<T>(a: seq<T>, b: seq<T>, keep: T -> bool)
    ensures Filter(a + b, keep) == Filter(a, keep) + Filter(b, keep)
    decreases |b|
  {
    if |b| > 0 {
      var ab := a + b;
      assert ab[..|ab| - 1] == a + b[..|b| - 1];
      assert ab[|ab| - 1] == b[|b| - 1];
      FilterAppend(a, b[..|b| - 1], keep);
    } else {
      assert a + b == a;
    }
  }

  /** A sequence whose every element is kept comes back whole; so filtering twice is filtering once. */
  lemma {:induction false} FilterAllKept<T>(s: seq<T>, keep: T -> bool)
    requires forall i :: 0 <= i < |s| ==> keep(s[i])
    ensures Filter(s, keep) == s
    decreases |s|
  {
    if |s| > 0 {
      FilterAllKept(s[..|s| - 1], keep);
      assert s == s[..|s| - 1] + [s[|s| - 1]];
    }
  }

  lemma FilterIdempotent<T>(s: seq<T>, keep: T -> bool)
    ensures Filter(Filter(s, keep), keep) == Filter(s, keep)
  {
    var r := Filter(s, keep);
    forall i | 0 <= i < |r| ensures keep(r[i]) {
      assert r[i] in r;
    }
    FilterAllKept(r, keep);
  }

  /**
   * The first element of the filtered sequence is the first element of `s` that is kept;
   * there is one exactly when some element is kept.
   */
  lemma {:induction false} FilterFirst<T>(s: seq<T>, keep: T -> bool)
    ensures |Filter(s, keep)| > 0 <==> exists i :: 0 <= i < |s| && keep(s[i])
    ensures |Filter(s, keep)| > 0 ==>
      exists k :: 0 <= k < |s| && Filter(s, keep)[0] == s[k] && keep(s[k]) && forall j :: 0 <= j < k ==> !keep(s[j])
    decreases |s|
  {
    if |s| > 0 {
      var init := s[..|s| - 1];
      FilterFirst(init, keep);
      if |Filter(init, keep)| > 0 {
        var k :| 0 <= k < |init| && Filter(init, keep)[0] == init[k] && keep(init[k]) && forall j :: 0 <= j < k ==> !keep(init[j]);
        assert Filter(s, keep)[0] == s[k];
        assert forall j :: 0 <= j < k ==> s[j] == init[j];
      } else if keep(s[|s| - 1]) {
        assert forall j :: 0 <= j < |s| - 1 ==> s[j] == init[j];
        assert Filter(s, keep)[0] == s[|s| - 1];
      } else {
        assert forall j :: 0 <= j < |s| - 1 ==> s[j] == init[j];
      }
    }
  }

  /** Filtering keeps the order: elements in increasing `key` stay in increasing `key`. */
  lemma {:induction false} FilterKeepsOrder<T>(s: seq<T>, keep: T -> bool, key: T -> int)
    requires forall a, b :: 0 <= a < b < |s| ==> key(s[a]) < key(s[b])
    ensures forall a, b :: 0 <= a < b < |Filter(s, keep)| ==> key(Filter(s, keep)[a]) < key(Filter(s, keep)[b])
    decreases |s|
  {
    if |s| > 0 {
      var init := s[..|s| - 1];
      FilterKeepsOrder(init, keep, key);
      var r := Filter(s, keep);
      var ri := Filter(init, keep);
      if keep(s[|s| - 1]) {
        assert r == ri + [s[|s| - 1]];
        forall a | 0 <= a < |ri| ensures key(ri[a]) < key(s[|s| - 1]) {
          assert ri[a] in init;
          var m :| 0 <= m < |init| && init[m] == ri[a];
          assert s[m] == ri[a];
        }
        forall a, b | 0 <= a < b < |r| ensures key(r[a]) < key(r[b]) {
          if b < |ri| {
            assert r[a] == ri[a] && r[b] == ri[b];
            assert key(ri[a]) < key(ri[b]);
          } else {
            assert r[a] == ri[a] && r[b] == s[|s| - 1];
            assert key(ri[a]) < key(s[|s| - 1]);
          }
        }
      } else {
        assert r == ri;
      }
    }
  }
}
