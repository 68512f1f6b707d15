/** A stable sort by non-increasing score, as `sorted(pairs, key=score, reverse=True)`
    computes it: entries carry their input position, and equal scores keep input order. */
module Ranking {

  /** An entry to be sorted: the item, its score and its position in the input. */
  datatype Scored<T> = Scored(item: T, score: real, index: nat)

  /** `a` comes before `b` in a stable sort by non-increasing score. */
  predicate Precedes<T>(a: Scored<T>, b: Scored<T>) {
    a.score > b.score || (a.score == b.score && a.index < b.index)
  }

  predicate Ranked<T>(s: seq<Scored<T>>) {
    forall i, j :: 0 <= i < j < |s| ==> Precedes(s[i], s[j])
  }

  /** Inserts `x` after every entry whose score is at least its own. */
  function Insert<T(==)>(x: Scored<T>, s: seq<Scored<T>>): (r: seq<Scored<T>>)
    ensures multiset(r) == multiset(s) + multiset{x}
  {
    if |s| == 0 then [x]
    else if s[0].score < x.score then [x] + s
    else
      assert s == [s[0]] + s[1..];
      [s[0]] + Insert(x, s[1..])
  }

  /** `sorted(..., key=score, reverse=True)`: insertion of each entry in input order. */
  function SortByScore<T(==)>(es: seq<Scored<T>>): (r: seq<Scored<T>>)
    ensures multiset(r) == multiset(es)
  {
    if |es| == 0 then []
    else
      assert es == es[..|es| - 1] + [es[|es| - 1]];
      Insert(es[|es| - 1], SortByScore(es[..|es| - 1]))
  }

  function Items<T>(s: seq<Scored<T>>): (ps: seq<T>)
    ensures |ps| == |s| && forall i :: 0 <= i < |s| ==> ps[i] == s[i].item
  {
    seq(|s|, i requires 0 <= i < |s| => s[i].item)
  }

  /** A ranked list stays ranked when an entry that precedes all of it is put in front. */
  lemma ConsRanked<T>(h: Scored<T>, s: seq<Scored<T>>)
    requires Ranked(s) && forall y :: y in s ==> Precedes(h, y)
    ensures Ranked([h] + s)
  {
    var r := [h] + s;
    forall i, j | 0 <= i < j < |r| ensures Precedes(r[i], r[j]) {
      assert r[j] == s[j - 1];
      if i > 0 {
        assert r[i] == s[i - 1];
      }
    }
  }

  lemma RankedTail<T>(s: seq<Scored<T>>)
    requires Ranked(s) && |s| > 0
    ensures Ranked(s[1..]) && forall y :: y in s[1..] ==> Precedes(s[0], y)
  {
    forall i, j | 0 <= i < j < |s[1..]| ensures Precedes(s[1..][i], s[1..][j]) {
      assert s[1..][i] == s[i + 1] && s[1..][j] == s[j + 1];
    }
    forall y | y in s[1..] ensures Precedes(s[0], y) {
      var k :| 0 <= k < |s[1..]| && s[1..][k] == y;
      assert s[k + 1] == y;
    }
  }

  /** Inserting an entry that comes after all present ones on ties keeps the order. */
  lemma {:induction false} InsertRanked<T>(x: Scored<T>, s: seq<Scored<T>>)
    requires Ranked(s) && forall y :: y in s ==> y.index < x.index
    ensures Ranked(Insert(x, s))
  {
    if |s| > 0 {
      RankedTail(s);
      if s[0].score >= x.score {
        var rest := Insert(x, s[1..]);
        assert forall y :: y in s[1..] ==> y in s;
        InsertRanked(x, s[1..]);
        forall y | y in rest ensures Precedes(s[0], y) {
          assert y in multiset(rest);
        }
        ConsRanked(s[0], rest);
      } else {
        assert s == [s[0]] + s[1..];
        forall y | y in s ensures Precedes(x, y) {
        }
        ConsRanked(x, s);
      }
    }
  }

  /** The sort of entries listed by increasing position is ranked: scores never increase,
      and entries with equal scores keep their input order (the sort is stable). */
  lemma {:induction false} SortRanked<T>(es: seq<Scored<T>>)
    requires forall i, j :: 0 <= i < j < |es| ==> es[i].index < es[j].index
    ensures Ranked(SortByScore(es))
  {
    if |es| > 0 {
      var init := es[..|es| - 1];
      var x := es[|es| - 1];
      SortRanked(init);
      forall y | y in SortByScore(init) ensures y.index < x.index {
        assert y in multiset(SortByScore(init));
        var k :| 0 <= k < |init| && init[k] == y;
      }
      InsertRanked(x, SortByScore(init));
    }
  }

  lemma ItemsAppend<T>(a: seq<Scored<T>>, b: seq<Scored<T>>)
    ensures Items(a + b) == Items(a) + Items(b)
  {
  }

  lemma {:induction false} ItemsInsert<T>(x: Scored<T>, s: seq<Scored<T>>)
    ensures multiset(Items(Insert(x, s))) == multiset(Items(s)) + multiset{x.item}
  {
    if |s| > 0 {
      var head := s[0];
      assert Items([head]) == [head.item];
      assert s == [head] + s[1..];
      ItemsAppend([head], s[1..]);
      var ms := multiset(Items(s));
      assert ms == multiset{head.item} + multiset(Items(s[1..]));
      if head.score < x.score {
        assert Items([x]) == [x.item];
        ItemsAppend([x], s);
      } else {
        var r := Insert(x, s[1..]);
        ItemsInsert(x, s[1..]);
        ItemsAppend([head], r);
        assert Items([head] + r) == [head.item] + Items(r);
      }
    }
  }

  /** The sorted entries carry the same items, each as often. */
  lemma {:induction false} ItemsSort<T>(es: seq<Scored<T>>)
    ensures multiset(Items(SortByScore(es))) == multiset(Items(es))
  {
    if |es| > 0 {
      var init := es[..|es| - 1];
      var x := es[|es| - 1];
      var sorted := SortByScore(init);
      assert SortByScore(es) == Insert(x, sorted);
      ItemsSort(init);
      ItemsInsert(x, sorted);
      ItemsSnoc(es);
    }
  }

  /** The items of a list are those of all but its last entry, and the last entry's. */
  lemma ItemsSnoc<T>(es: seq<Scored<T>>)
    requires |es| > 0
    ensures multiset(Items(es)) == multiset(Items(es[..|es| - 1])) + multiset{es[|es| - 1].item}
  {
    var init, x := es[..|es| - 1], es[|es| - 1];
    assert es == init + [x];
    ItemsAppend(init, [x]);
    assert Items([x]) == [x.item];
  }
}
