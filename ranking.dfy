/** `item_scores.sort(reverse=True, key=lambda x: x[0])`: Python's sort is stable, so foods
    with equal scores keep their catalog order. */
module Ranking {
  import opened Foods

  datatype Scored = Scored(score: real, food: Food)

  /** Places `x` after every element whose score is at least `x`'s. */
  function InsertByScore(x: Scored, s: seq<Scored>): seq<Scored>
    decreases |s|
  {
    if s == [] then [x]
    else if s[0].score >= x.score then [s[0]] + InsertByScore(x, s[1..])
    else [x] + s
  }

  /** Stable sort by descending score (insertion sort, elements taken in input order). */
  function SortByScore(s: seq<Scored>): seq<Scored>
    decreases |s|
  {
    if s == [] then []
    else InsertByScore(s[|s| - 1], SortByScore(s[..|s| - 1]))
  }

  predicate SortedDesc(s: seq<Scored>) {
    forall i, j :: 0 <= i < j < |s| ==> s[i].score >= s[j].score
  }

  /** The elements of `s` with score `v`, in order. */
  function WithScore(s: seq<Scored>, v: real): seq<Scored>
    decreases |s|
  {
    if s == [] then []
    else (if s[0].score == v then [s[0]] else []) + WithScore(s[1..], v)
  }

  function FoodsOf(s: seq<Scored>): (fs: seq<Food>)
    ensures |fs| == |s| && forall i :: 0 <= i < |s| ==> fs[i] == s[i].food
  {
    seq(|s|, i requires 0 <= i < |s| => s[i].food)
  }

  lemma {:induction false} WithScoreAppend(a: seq<Scored>, b: seq<Scored>, v: real)
    ensures WithScore(a + b, v) == WithScore(a, v) + WithScore(b, v)
    decreases |a|
  {
    if a != [] {
      assert (a + b)[1..] == a[1..] + b;
      WithScoreAppend(a[1..], b, v);
    } else {
      assert a + b == b;
    }
  }

  lemma {:induction false} WithScoreNone(s: seq<Scored>, v: real)
    requires forall i :: 0 <= i < |s| ==> s[i].score != v
    ensures WithScore(s, v) == []
    decreases |s|
  {
    if s != [] {
      WithScoreNone(s[1..], v);
    }
  }

  lemma {:induction false} InsertByScoreMultiset(x: Scored, s: seq<Scored>)
    ensures multiset(InsertByScore(x, s)) == multiset(s) + multiset{x}
    decreases |s|
  {
    if s != [] && s[0].score >= x.score {
      InsertByScoreMultiset(x, s[1..]);
      assert s == [s[0]] + s[1..];
    }
  }

  lemma {:induction false} InsertByScoreSorted(x: Scored, s: seq<Scored>)
    requires SortedDesc(s)
    ensures SortedDesc(InsertByScore(x, s))
    decreases |s|
  {
    if s != [] && s[0].score >= x.score {
      var t := InsertByScore(x, s[1..]);
      SortedTail(s);
      InsertByScoreSorted(x, s[1..]);
      InsertByScoreBelow(x, s[1..], s[0].score);
      ConsSorted(s[0], t);
    } else if s != [] {
      ConsSorted(x, s);
    }
  }

  lemma SortedTail(s: seq<Scored>)
    requires SortedDesc(s) && s != []
    ensures SortedDesc(s[1..]) && forall k :: 0 <= k < |s[1..]| ==> s[1..][k].score <= s[0].score
  {
    forall i, j | 0 <= i < j < |s[1..]| ensures s[1..][i].score >= s[1..][j].score {
      assert s[1..][i] == s[i + 1] && s[1..][j] == s[j + 1];
    }
  }

  /** Inserting below a bound keeps every score below it. */
  lemma {:induction false} InsertByScoreBelow(x: Scored, s: seq<Scored>, b: real)
    requires x.score <= b && forall k :: 0 <= k < |s| ==> s[k].score <= b
    ensures forall k :: 0 <= k < |InsertByScore(x, s)| ==> InsertByScore(x, s)[k].score <= b
    decreases |s|
  {
    if s != [] && s[0].score >= x.score {
      InsertByScoreBelow(x, s[1..], b);
      var t := InsertByScore(x, s[1..]);
      assert InsertByScore(x, s) == [s[0]] + t;
    }
  }

  lemma ConsSorted(h: Scored, t: seq<Scored>)
    requires SortedDesc(t) && forall k :: 0 <= k < |t| ==> t[k].score <= h.score
    ensures SortedDesc([h] + t)
  {
    var r := [h] + t;
    forall i, j | 0 <= i < j < |r| ensures r[i].score >= r[j].score {
      assert r[j] == t[j - 1];
      if i > 0 {
        assert r[i] == t[i - 1];
      }
    }
  }

  lemma {:induction false} InsertByScoreStable(x: Scored, s: seq<Scored>, v: real)
    requires SortedDesc(s)
    ensures WithScore(InsertByScore(x, s), v) == WithScore(s, v) + (if x.score == v then [x] else [])
    decreases |s|
  {
    var r := InsertByScore(x, s);
    var tail: seq<Scored> := if x.score == v then [x] else [];
    if s == [] {
      assert r == [x];
      assert WithScore(r, v) == tail + WithScore([], v);
    } else if s[0].score >= x.score {
      var t := InsertByScore(x, s[1..]);
      var h: seq<Scored> := if s[0].score == v then [s[0]] else [];
      assert SortedDesc(s[1..]) by {
        forall i, j | 0 <= i < j < |s[1..]| ensures s[1..][i].score >= s[1..][j].score {
          assert s[1..][i] == s[i + 1] && s[1..][j] == s[j + 1];
        }
      }
      InsertByScoreStable(x, s[1..], v);
      assert r == [s[0]] + t;
      assert r[0] == s[0] && r[1..] == t;
      assert WithScore(r, v) == h + WithScore(t, v);
      assert WithScore(s, v) == h + WithScore(s[1..], v);
      assert h + (WithScore(s[1..], v) + tail) == (h + WithScore(s[1..], v)) + tail;
    } else {
      assert r == [x] + s;
      assert r[0] == x && r[1..] == s;
      assert WithScore(r, v) == tail + WithScore(s, v);
      if x.score == v {
        WithScoreNone(s, v);
      }
    }
  }

  /** The ranking is sorted by descending score, is a permutation of its input, and keeps
      the input order among equal scores (stability). */
  lemma {:induction false} SortByScoreSpec(s: seq<Scored>)
    ensures SortedDesc(SortByScore(s))
    ensures multiset(SortByScore(s)) == multiset(s)
    ensures forall v :: WithScore(SortByScore(s), v) == WithScore(s, v)
    decreases |s|
  {
    if s != [] {
      var init := s[..|s| - 1];
      var last := s[|s| - 1];
      assert s == init + [last];
      SortByScoreSpec(init);
      InsertByScoreSorted(last, SortByScore(init));
      InsertByScoreMultiset(last, SortByScore(init));
      forall v ensures WithScore(SortByScore(s), v) == WithScore(s, v) {
        InsertByScoreStable(last, SortByScore(init), v);
        WithScoreAppend(init, [last], v);
        assert WithScore([last], v) == (if last.score == v then [last] else []) + WithScore([], v);
      }
    }
  }
}
