/** The Cypher reads of queries.py, `MATCH (n) WHERE <p> RETURN n ORDER BY
    ... LIMIT $limit`, over the nodes of the graph: the nodes satisfying the
    predicate, in the order the store returns them, cut to the limit. An
    `ORDER BY` on a key of the nodes is a stable sort of the selected nodes
    (`SelectSorted`); one on the match dates is taken as already applied to
    the node sequence given, and where nulls and ties go is left open there.
    Also the truthiness tests `if season:` / `if competition:` that decide
    which conditions join the WHERE clause. */
module Selection {
  import opened Wrappers
  import opened Text
  import opened Models
  import opened Sorting

  /** The nodes the queries read: Match and Player property bags as the
      loader stored them, and the Team node properties. */
  datatype Graph = Graph(matches: seq<MatchRecord>, players: seq<Player>, teams: seq<TeamRecord>)

  /** `WHERE p`: the elements satisfying `p`, in order. */
  function Filter<T>(s: seq<T>, p: T -> bool): (r: seq<T>)
    ensures |r| <= |s|
    ensures forall i :: 0 <= i < |r| ==> p(r[i]) && r[i] in s
    ensures forall i :: 0 <= i < |s| && p(s[i]) ==> s[i] in r
  {
    if s == [] then []
    else
      var init := Filter(s[..|s| - 1], p);
      assert forall i :: 0 <= i < |s| - 1 ==> s[..|s| - 1][i] == s[i];
      if p(s[|s| - 1]) then init + [s[|s| - 1]] else init
  }

  /** `LIMIT n`: the first `n` elements. */
  function Limit<T>(s: seq<T>, n: nat): (r: seq<T>)
    ensures |r| == if n < |s| then n else |s|
    ensures r == s[..|r|]
    ensures |s| <= n ==> r == s
  {
    if n < |s| then s[..n] else s
  }

  /** `MATCH ... WHERE p ... LIMIT n`: at most `n` nodes, each satisfying
      `p`; when fewer than `n` come back, every node satisfying `p` is among
      them. */
  function Select<T>(s: seq<T>, p: T -> bool, n: nat): (r: seq<T>)
    ensures |r| <= n
    ensures forall i :: 0 <= i < |r| ==> p(r[i]) && r[i] in s
    ensures |r| < n ==> forall i :: 0 <= i < |s| && p(s[i]) ==> s[i] in r
  {
    var f := Filter(s, p);
    var r := Limit(f, n);
    assert forall i :: 0 <= i < |r| ==> r[i] == f[i];
    r
  }

  /** `MATCH ... WHERE p ... ORDER BY ... LIMIT n` where the order is a
      key of the nodes: the nodes satisfying `p`, sorted, cut to the limit.
      At most `n` nodes, each satisfying `p`; when fewer than `n` come back,
      every node satisfying `p` is among them. */
  function SelectSorted<T>(s: seq<T>, p: T -> bool, before: (T, T) -> bool, n: nat): (r: seq<T>)
    ensures |r| <= n
    ensures forall i :: 0 <= i < |r| ==> p(r[i]) && r[i] in s
    ensures |r| < n ==> forall i :: 0 <= i < |s| && p(s[i]) ==> s[i] in r
  {
    var sorted := Sort(Filter(s, p), before);
    SortedSound(s, p, before);
    SortedComplete(s, p, before);
    var r := Limit(sorted, n);
    assert forall i :: 0 <= i < |r| ==> r[i] == sorted[i];
    r
  }

  /** Sorting the selected nodes keeps them, and only them. */
  lemma SortedSound<T>(s: seq<T>, p: T -> bool, before: (T, T) -> bool)
    ensures forall i :: 0 <= i < |Sort(Filter(s, p), before)| ==>
      p(Sort(Filter(s, p), before)[i]) && Sort(Filter(s, p), before)[i] in s
  {
    var f := Filter(s, p);
    var sorted := Sort(f, before);
    forall i | 0 <= i < |sorted|
      ensures p(sorted[i]) && sorted[i] in s
    {
      assert sorted[i] in multiset(f);
      var j :| 0 <= j < |f| && f[j] == sorted[i];
    }
  }

  lemma SortedComplete<T>(s: seq<T>, p: T -> bool, before: (T, T) -> bool)
    ensures forall i :: 0 <= i < |s| && p(s[i]) ==> s[i] in Sort(Filter(s, p), before)
  {
    var f := Filter(s, p);
    var sorted := Sort(f, before);
    forall i | 0 <= i < |s| && p(s[i])
      ensures s[i] in sorted
    {
      assert s[i] in multiset(f);
    }
  }

  /** Over a total preorder the nodes come in order, and every node
      satisfying `p` that the limit left out may come after each node
      returned. */
  lemma SelectSortedOrdered<T(!new)>(s: seq<T>, p: T -> bool, before: (T, T) -> bool, n: nat)
    requires TotalPreorder(before)
    ensures Sorted(SelectSorted(s, p, before, n), before)
    ensures forall x, k :: x in s && p(x) && x !in SelectSorted(s, p, before, n) && 0 <= k < |SelectSorted(s, p, before, n)| ==>
      before(SelectSorted(s, p, before, n)[k], x)
  {
    var f := Filter(s, p);
    TopOfSorted(f, before, n);
    forall x | x in s && p(x)
      ensures x in f
    {
      var i :| 0 <= i < |s| && s[i] == x;
    }
  }

  /** Python truthiness of an optional integer argument. */
  predicate IntGiven(x: Option<int>) {
    x.Some? && x.value != 0
  }

  /** Python truthiness of an optional string argument. */
  predicate StrGiven(x: Option<string>) {
    x.Some? && x.value != ""
  }

  /** `m.competition CONTAINS $competition`, when a competition is given. */
  predicate CompetitionOk(competition: Option<string>, m: MatchRecord) {
    StrGiven(competition) ==> Contains(m.competition, competition.value)
  }

  /** `m.season = $season`, when a season is given: a null season never
      equals it. */
  predicate SeasonOk(season: Option<int>, m: MatchRecord) {
    IntGiven(season) ==> m.season == Some(season.value)
  }

  /** The number of elements satisfying `p`. */
  function Count<T>(s: seq<T>, p: T -> bool): (n: nat)
    ensures n <= |s|
  {
    if s == [] then 0 else Count(s[..|s| - 1], p) + if p(s[|s| - 1]) then 1 else 0
  }

  /** The sum of `f` over the elements. */
  function Sum<T>(s: seq<T>, f: T -> int): int {
    if s == [] then 0 else Sum(s[..|s| - 1], f) + f(s[|s| - 1])
  }

  lemma CountSnoc<T>(s: seq<T>, i: nat, p: T -> bool)
    requires i < |s|
    ensures Count(s[..i + 1], p) == Count(s[..i], p) + if p(s[i]) then 1 else 0
  {
    assert s[..i + 1][..i] == s[..i];
  }

  lemma SumSnoc<T>(s: seq<T>, i: nat, f: T -> int)
    requires i < |s|
    ensures Sum(s[..i + 1], f) == Sum(s[..i], f) + f(s[i])
  {
    assert s[..i + 1][..i] == s[..i];
  }

  /** When every element satisfies exactly one of three conditions, their
      counts add up to the length. */
  lemma {:induction false} CountPartition<T>(s: seq<T>, p: T -> bool, q: T -> bool, r: T -> bool)
    requires forall i :: 0 <= i < |s| ==> (if p(s[i]) then 1 else 0) + (if q(s[i]) then 1 else 0) + (if r(s[i]) then 1 else 0) == 1
    ensures Count(s, p) + Count(s, q) + Count(s, r) == |s|
    decreases |s|
  {
    if s != [] {
      var init := s[..|s| - 1];
      assert forall i :: 0 <= i < |init| ==> init[i] == s[i];
      CountPartition(init, p, q, r);
    }
  }

  /** Two sums add up elementwise. */
  lemma {:induction false} SumAdd<T>(s: seq<T>, f: T -> int, g: T -> int, h: T -> int)
    requires forall i :: 0 <= i < |s| ==> f(s[i]) + g(s[i]) == h(s[i])
    ensures Sum(s, f) + Sum(s, g) == Sum(s, h)
    decreases |s|
  {
    if s != [] {
      var init := s[..|s| - 1];
      assert forall i :: 0 <= i < |init| ==> init[i] == s[i];
      SumAdd(init, f, g, h);
    }
  }

  /** Conditions that agree on every element count the same. */
  lemma {:induction false} CountAgree<T>(s: seq<T>, p: T -> bool, q: T -> bool)
    requires forall i :: 0 <= i < |s| ==> p(s[i]) == q(s[i])
    ensures Count(s, p) == Count(s, q)
    decreases |s|
  {
    if s != [] {
      var init := s[..|s| - 1];
      assert forall i :: 0 <= i < |init| ==> init[i] == s[i];
      CountAgree(init, p, q);
    }
  }

  /** Functions that agree on every element sum the same. */
  lemma {:induction false} SumAgree<T>(s: seq<T>, f: T -> int, g: T -> int)
    requires forall i :: 0 <= i < |s| ==> f(s[i]) == g(s[i])
    ensures Sum(s, f) == Sum(s, g)
    decreases |s|
  {
    if s != [] {
      var init := s[..|s| - 1];
      assert forall i :: 0 <= i < |init| ==> init[i] == s[i];
      SumAgree(init, f, g);
    }
  }

  /** Conditions that agree on every element select the same elements. */
  lemma {:induction false} FilterAgree<T>(s: seq<T>, p: T -> bool, q: T -> bool)
    requires forall i :: 0 <= i < |s| ==> p(s[i]) == q(s[i])
    ensures Filter(s, p) == Filter(s, q)
    decreases |s|
  {
    if s != [] {
      var init := s[..|s| - 1];
      assert forall i :: 0 <= i < |init| ==> init[i] == s[i];
      FilterAgree(init, p, q);
    }
  }

  /** A condition every element satisfies keeps the whole sequence. */
  lemma {:induction false} FilterAll<T>(s: seq<T>, p: T -> bool)
    requires forall i :: 0 <= i < |s| ==> p(s[i])
    ensures Filter(s, p) == s
    decreases |s|
  {
    if s != [] {
      var init, x := s[..|s| - 1], s[|s| - 1];
      assert forall i :: 0 <= i < |init| ==> init[i] == s[i];
      FilterAll(init, p);
      assert p(x);
      assert init + [x] == s;
    }
  }

  /** The filter keeps as many elements as satisfy the condition. */
  lemma {:induction false} FilterCount<T>(s: seq<T>, p: T -> bool)
    ensures |Filter(s, p)| == Count(s, p)
    decreases |s|
  {
    if s != [] {
      FilterCount(s[..|s| - 1], p);
    }
  }

  /** Splitting a filter in two disjoint halves splits counts and sums over
      its result. */
  lemma {:induction false} FilterSplit<T>(s: seq<T>, e: T -> bool, h: T -> bool, a: T -> bool, p: T -> bool, f: T -> int)
    requires forall i :: 0 <= i < |s| ==> e(s[i]) == (h(s[i]) || a(s[i])) && !(h(s[i]) && a(s[i]))
    ensures |Filter(s, e)| == |Filter(s, h)| + |Filter(s, a)|
    ensures Count(Filter(s, e), p) == Count(Filter(s, h), p) + Count(Filter(s, a), p)
    ensures Sum(Filter(s, e), f) == Sum(Filter(s, h), f) + Sum(Filter(s, a), f)
    decreases |s|
  {
    if s != [] {
      var init, x := s[..|s| - 1], s[|s| - 1];
      assert forall i :: 0 <= i < |init| ==> init[i] == s[i];
      FilterSplit(init, e, h, a, p, f);
      var fe, fh, fa := Filter(init, e), Filter(init, h), Filter(init, a);
      if e(x) {
        assert (fe + [x])[..|fe|] == fe;
      }
      if h(x) {
        assert (fh + [x])[..|fh|] == fh;
      }
      if a(x) {
        assert (fa + [x])[..|fa|] == fa;
      }
    }
  }

  /** The goals scored in a match, its `total_goals`. */
  function Goals(m: MatchRecord): int {
    m.homeGoals + m.awayGoals
  }

  lemma {:induction false} SumCons<T>(x: T, s: seq<T>, f: T -> int)
    ensures Sum([x] + s, f) == f(x) + Sum(s, f)
    decreases |s|
  {
    if s != [] {
      var init := s[..|s| - 1];
      assert ([x] + s)[..|s|] == [x] + init;
      SumCons(x, init, f);
    }
  }

  lemma {:induction false} SumInsert<T>(x: T, s: seq<T>, before: (T, T) -> bool, f: T -> int)
    ensures Sum(Insert(x, s, before), f) == f(x) + Sum(s, f)
    decreases |s|
  {
    if s == [] {
      SumCons(x, s, f);
    } else if before(x, s[0]) {
      SumCons(x, s, f);
    } else {
      SumInsert(x, s[1..], before, f);
      SumCons(s[0], Insert(x, s[1..], before), f);
      SumCons(s[0], s[1..], f);
      assert s == [s[0]] + s[1..];
    }
  }

  /** Sorting does not change a sum. */
  lemma {:induction false} SumSort<T>(s: seq<T>, before: (T, T) -> bool, f: T -> int)
    ensures Sum(Sort(s, before), f) == Sum(s, f)
    decreases |s|
  {
    if s != [] {
      SumSort(s[1..], before, f);
      SumInsert(s[0], Sort(s[1..], before), before, f);
      SumCons(s[0], s[1..], f);
      assert s == [s[0]] + s[1..];
    }
  }

  /** A sum over a concatenation is the sum of the sums. */
  lemma {:induction false} SumConcat<T>(a: seq<T>, b: seq<T>, f: T -> int)
    ensures Sum(a + b, f) == Sum(a, f) + Sum(b, f)
    decreases |b|
  {
    if b == [] {
      assert a + b == a;
    } else {
      var init := b[..|b| - 1];
      assert (a + b)[..|a + b| - 1] == a + init;
      assert (a + b)[|a + b| - 1] == b[|b| - 1];
      SumConcat(a, init, f);
    }
  }

  /** `ORDER BY ... LIMIT n` over a total preorder: the rows kept are in
      order, and every row left out may come after each row kept. */
  lemma TopOfSorted<T(!new)>(s: seq<T>, before: (T, T) -> bool, n: nat)
    requires TotalPreorder(before)
    ensures Sorted(Limit(Sort(s, before), n), before)
    ensures forall x, k :: x in s && x !in Limit(Sort(s, before), n) && 0 <= k < |Limit(Sort(s, before), n)| ==>
      before(Limit(Sort(s, before), n)[k], x)
  {
    var sorted := Sort(s, before);
    var r := Limit(sorted, n);
    SortSorted(s, before);
    SortedPrefix(sorted, |r|, before);
    forall x, k | x in s && x !in r && 0 <= k < |r|
      ensures before(r[k], x)
    {
      assert x in multiset(sorted);
      var j :| 0 <= j < |sorted| && sorted[j] == x;
      assert j >= |r|;
      assert r[k] == sorted[k];
    }
  }
}
