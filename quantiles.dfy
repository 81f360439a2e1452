/**
 * Quartile scoring: cutting a column into four bins at its quartiles and labelling
 * the bins, and the "first" ranking that Frequency and Monetary go through first.
 *
 * The quartile edges are the linearly interpolated quantiles 0, 1/4, 1/2, 3/4 and 1 of
 * the non-missing values. They are kept as four times their value, which is always a
 * whole number for whole-number data, so the model needs no fractions. A value falls
 * in the first bin whose upper edge reaches it, the smallest value in the first bin.
 * When two edges coincide, the labelling with four labels raises an error instead of
 * producing fewer bins; the model returns None there.
 */
module Quantiles {
  import opened Wrappers
  import opened Segments
  import opened Sequences

  predicate Sorted(s: seq<int>)
  {
    forall i, j :: 0 <= i < j < |s| ==> s[i] <= s[j]
  }

  /** Puts x before the first element that is not smaller than it. */
  function InsertSorted(s: seq<int>, x: int): (r: seq<int>)
    ensures |r| == |s| + 1
  {
    if s == [] then [x]
    else if x <= s[0] then [x] + s
    else [s[0]] + InsertSorted(s[1..], x)
  }

  /** A value no larger than any element of a sorted sequence can be put in front of it. */
  lemma SortedCons(a: int, t: seq<int>)
    requires Sorted(t)
    requires forall k :: 0 <= k < |t| ==> a <= t[k]
    ensures Sorted([a] + t)
  {
    var r := [a] + t;
    forall i, j | 0 <= i < j < |r| ensures r[i] <= r[j] {
      assert r[j] == t[j - 1];
      if i > 0 {
        assert r[i] == t[i - 1];
      }
    }
  }

  /** Inserting into a sorted sequence keeps it sorted and adds exactly x. */
  lemma {:induction false} InsertSortedSpec(s: seq<int>, x: int)
    requires Sorted(s)
    ensures Sorted(InsertSorted(s, x))
    ensures multiset(InsertSorted(s, x)) == multiset(s) + multiset{x}
    decreases |s|
  {
    if s == [] {
    } else if x <= s[0] {
      SortedCons(x, s);
    } else {
      var rest := s[1..];
      assert s == [s[0]] + rest;
      var tail := InsertSorted(rest, x);
      InsertSortedSpec(rest, x);
      forall k | 0 <= k < |tail| ensures s[0] <= tail[k] {
        assert tail[k] in multiset(rest) + multiset{x};
        if tail[k] != x {
          var m :| 0 <= m < |rest| && rest[m] == tail[k];
          assert rest[m] == s[m + 1];
        }
      }
      SortedCons(s[0], tail);
    }
  }

  /** The values in ascending order (insertion sort). */
  function Sort(xs: seq<int>): (s: seq<int>)
    ensures |s| == |xs|
  {
    if xs == [] then [] else InsertSorted(Sort(xs[..|xs| - 1]), xs[|xs| - 1])
  }

  /** Sorting yields an ascending arrangement of the same values. */
  lemma {:induction false} SortSpec(xs: seq<int>)
    ensures Sorted(Sort(xs))
    ensures multiset(Sort(xs)) == multiset(xs)
    decreases |xs|
  {
    if xs != [] {
      var init := xs[..|xs| - 1];
      assert xs == init + [xs[|xs| - 1]];
      SortSpec(init);
      InsertSortedSpec(Sort(init), xs[|xs| - 1]);
    }
  }

  /** The non-missing values of a column, in order; quantiles are taken over these. */
  function Present(xs: seq<Option<int>>): (p: seq<int>)
    ensures forall v :: v in p <==> Some(v) in xs
    ensures |p| <= |xs|
  {
    if xs == [] then []
    else
      var init, last := xs[..|xs| - 1], xs[|xs| - 1];
      assert xs == init + [last];
      Present(init) + (if last.Some? then [last.value] else [])
  }

  /** dropna keeps the order of the column: the values of two stacked columns are those of each, stacked. */
  lemma {:induction false} PresentAppend(a: seq<Option<int>>, b: seq<Option<int>>)
    ensures Present(a + b) == Present(a) + Present(b)
    decreases |b|
  {
    if b == [] {
      assert a + b == a;
    } else {
      var b' := b[..|b| - 1];
      assert (a + b)[..|a + b| - 1] == a + b';
      PresentAppend(a, b');
    }
  }

  /** dropna keeps every occurrence: each value occurs in the result as often as it fills a cell. */
  lemma {:induction false} PresentCount(xs: seq<Option<int>>, v: int)
    ensures multiset(Present(xs))[v] == multiset(xs)[Some(v)]
    decreases |xs|
  {
    if xs != [] {
      var init, last := xs[..|xs| - 1], xs[|xs| - 1];
      assert xs == init + [last];
      assert multiset(xs) == multiset(init) + multiset{last};
      PresentCount(init, v);
    }
  }

  /** Four times the quantile b/4 of the sorted values s, interpolating linearly between neighbours. */
  function Edge4(s: seq<int>, b: int): int
    requires |s| >= 1 && 0 <= b <= 4
  {
    var t := Position(b, |s|);
    var j, r := t / 4, t % 4;
    if r == 0 then 4 * s[j] else 4 * s[j] + Times(r, s[j + 1] - s[j])
  }

  /** k times d for a small factor k, written as a sum. */
  function Times(k: int, d: int): int
    requires 0 <= k <= 4
  {
    if k == 0 then 0 else if k == 1 then d else if k == 2 then d + d else if k == 3 then d + d + d else d + d + d + d
  }

  /** Four times the (zero-based) position of quantile b/4 among n sorted values, that is b(n - 1). */
  function Position(b: int, n: int): (t: int)
    requires n >= 1 && 0 <= b <= 4
    ensures 0 <= t <= 4 * (n - 1)
  {
    Times(b, n - 1)
  }

  /** The five bin edges (scaled by four) of a non-empty column. */
  function Edges(s: seq<int>): (e: seq<int>)
    requires |s| >= 1
    ensures |e| == 5
  {
    [Edge4(s, 0), Edge4(s, 1), Edge4(s, 2), Edge4(s, 3), Edge4(s, 4)]
  }

  /** The outer edges are the smallest and the largest value. */
  lemma OuterEdges(s: seq<int>)
    requires |s| >= 1
    ensures Edges(s)[0] == 4 * s[0]
    ensures Edges(s)[4] == 4 * s[|s| - 1]
  {
  }

  predicate DistinctEdges(e: seq<int>)
    requires |e| == 5
  {
    forall i, j :: 0 <= i < j < 5 ==> e[i] != e[j]
  }

  /** The bin (1 to 4) of a value scaled by four: the first bin whose upper edge reaches it. */
  function Bin(v4: int, e: seq<int>): (b: int)
    requires |e| == 5
    ensures 1 <= b <= 4
  {
    if v4 <= e[1] then 1 else if v4 <= e[2] then 2 else if v4 <= e[3] then 3 else 4
  }

  /**
   * A value between the outer edges lies in the half-open interval of its bin, the
   * lower edge itself belonging to the first bin.
   */
  lemma BinInterval(v4: int, e: seq<int>)
    requires |e| == 5
    requires e[0] <= v4 <= e[4]
    ensures var b := Bin(v4, e);
      && (b == 1 ==> e[0] <= v4 <= e[1])
      && (b > 1 ==> e[b - 1] < v4 <= e[b])
  {
  }

  /** A larger value never lands in a lower bin. */
  lemma BinMonotone(v4: int, w4: int, e: seq<int>)
    requires |e| == 5
    requires v4 <= w4
    ensures Bin(v4, e) <= Bin(w4, e)
  {
  }

  /** Labels every cell of a column by the bin its value falls in; a missing value gets NaN. */
  function Labelled(xs: seq<Option<int>>, labels: seq<Quartile>, e: seq<int>): (scores: seq<Score>)
    requires |labels| == 4 && |e| == 5
    ensures |scores| == |xs|
    ensures forall i :: 0 <= i < |xs| ==>
      scores[i] == if xs[i].None? then NaN else Label(labels[Bin(4 * xs[i].value, e) - 1])
  {
    seq(|xs|, i requires 0 <= i < |xs| =>
      if xs[i].None? then NaN else Label(labels[Bin(4 * xs[i].value, e) - 1]))
  }

  /**
   * Cuts a column into quartile bins and labels them: a missing value gets NaN; when
   * there is no value at all or two edges coincide the cut fails (None).
   */
  function QCut(xs: seq<Option<int>>, labels: seq<Quartile>): (r: Option<seq<Score>>)
    requires |labels| == 4
    ensures r.Some? ==> |r.value| == |xs|
    ensures r.Some? ==> forall i :: 0 <= i < |xs| ==> (r.value[i].NaN? <==> xs[i].None?)
    ensures r.None? <==> Present(xs) == [] || !DistinctEdges(Edges(Sort(Present(xs))))
  {
    var p := Present(xs);
    if p == [] then None
    else
      var e := Edges(Sort(p));
      if !DistinctEdges(e) then None
      else Some(Labelled(xs, labels, e))
  }

  /** A successful cut labels a present cell by the bin of its value among the edges of the present values. */
  lemma LabelledAt(xs: seq<Option<int>>, labels: seq<Quartile>, e: seq<int>, i: int)
    requires |labels| == 4 && QCut(xs, labels).Some?
    requires e == Edges(Sort(Present(xs)))
    requires 0 <= i < |xs| && xs[i].Some?
    ensures QCut(xs, labels).value[i] == Label(labels[Bin(4 * xs[i].value, e) - 1])
  {
  }

  /** Every present value lies between the smallest and the largest present value. */
  lemma PresentWithinSorted(xs: seq<Option<int>>, i: int)
    requires 0 <= i < |xs| && xs[i].Some?
    ensures var s := Sort(Present(xs)); |s| >= 1 && s[0] <= xs[i].value <= s[|s| - 1]
  {
    var p, v := Present(xs), xs[i].value;
    assert Some(v) in xs;
    assert v in p;
    var s := Sort(p);
    SortSpec(p);
    assert v in multiset(p);
    assert v in s;
    var k :| 0 <= k < |s| && s[k] == v;
    assert s[0] <= s[k] <= s[|s| - 1];
  }

  /**
   * Where a successful cut puts a value: the label of the bin whose edge interval holds
   * it.
   */
  lemma QCutLabel(xs: seq<Option<int>>, labels: seq<Quartile>, i: int)
    requires |labels| == 4 && QCut(xs, labels).Some?
    requires 0 <= i < |xs| && xs[i].Some?
    ensures var e := Edges(Sort(Present(xs)));
      var v4 := 4 * xs[i].value;
      var b := Bin(v4, e);
      && QCut(xs, labels).value[i] == Label(labels[b - 1])
      && (b == 1 ==> e[0] <= v4 <= e[1])
      && (b > 1 ==> e[b - 1] < v4 <= e[b])
  {
    var s := Sort(Present(xs));
    var e := Edges(s);
    PresentWithinSorted(xs, i);
    OuterEdges(s);
    LabelledAt(xs, labels, e, i);
    BinInterval(4 * xs[i].value, e);
  }

  /**
   * Labels follow the order of the values: with labels 1..4 a larger value never gets a
   * smaller label, and with the reversed labels 4..1 it never gets a larger one.
   */
  lemma QCutMonotone(xs: seq<Option<int>>, labels: seq<Quartile>, i: int, j: int)
    requires |labels| == 4 && QCut(xs, labels).Some?
    requires 0 <= i < |xs| && 0 <= j < |xs| && xs[i].Some? && xs[j].Some?
    requires xs[i].value <= xs[j].value
    ensures labels == [1, 2, 3, 4] ==> QCut(xs, labels).value[i].q <= QCut(xs, labels).value[j].q
    ensures labels == [4, 3, 2, 1] ==> QCut(xs, labels).value[i].q >= QCut(xs, labels).value[j].q
  {
    var e := Edges(Sort(Present(xs)));
    BinMonotone(4 * xs[i].value, 4 * xs[j].value, e);
  }

  /** The edges of a single value all coincide. */
  lemma EdgesOfOne(s: seq<int>)
    requires |s| >= 1
    ensures |s| == 1 ==> !DistinctEdges(Edges(s))
  {
    if |s| == 1 {
      assert Edges(s)[0] == Edges(s)[1];
    }
  }

  /** A cut needs at least two present values. */
  lemma QCutNeedsTwo(xs: seq<Option<int>>, labels: seq<Quartile>)
    requires |labels| == 4 && QCut(xs, labels).Some?
    ensures |Present(xs)| >= 2
  {
    EdgesOfOne(Sort(Present(xs)));
  }

  /** Index j is ranked before index i: a smaller value, or an equal value met earlier. */
  predicate Precedes(vals: seq<int>, j: int, i: int)
    requires 0 <= j < |vals| && 0 <= i < |vals|
  {
    vals[j] < vals[i] || (vals[j] == vals[i] && j < i)
  }

  /** The indices ranked before index i. */
  function Before(vals: seq<int>, i: int): set<int>
    requires 0 <= i < |vals|
  {
    set j | 0 <= j < |vals| && Precedes(vals, j, i)
  }

  /** The rank with ties broken by order of appearance: one more than the number of rows ranked before. */
  function Rank(vals: seq<int>, i: int): int
    requires 0 <= i < |vals|
  {
    1 + |Before(vals, i)|
  }

  function FirstRanks(vals: seq<int>): (ranks: seq<int>)
    ensures |ranks| == |vals|
  {
    seq(|vals|, i requires 0 <= i < |vals| => Rank(vals, i))
  }

  /** The integers from lo up to but excluding hi. */
  function Span(lo: int, hi: int): (r: set<int>)
    ensures forall k :: k in r <==> lo <= k < hi
    ensures lo <= hi ==> |r| == hi - lo
    decreases hi - lo
  {
    if hi <= lo then {} else Span(lo, hi - 1) + {hi - 1}
  }

  /** A subset is no larger, and a proper subset is smaller. */
  lemma SubsetCardinality(a: set<int>, b: set<int>)
    requires a <= b
    ensures |a| <= |b|
    ensures a != b ==> |a| < |b|
  {
    var rest := b - a;
    assert b == a + rest && a * rest == {};
    if a != b {
      assert rest != {};
    }
  }

  /** Ranks lie between 1 and the number of rows. */
  lemma RankBounds(vals: seq<int>, i: int)
    requires 0 <= i < |vals|
    ensures 1 <= Rank(vals, i) <= |vals|
  {
    var others := Span(0, |vals|) - {i};
    assert |others| == |vals| - 1;
    SubsetCardinality(Before(vals, i), others);
  }

  /** A row ranked before another gets the smaller rank. */
  lemma RankOrder(vals: seq<int>, j: int, i: int)
    requires 0 <= j < |vals| && 0 <= i < |vals|
    requires Precedes(vals, j, i)
    ensures Rank(vals, j) < Rank(vals, i)
  {
    var bj, bi := Before(vals, j), Before(vals, i);
    assert bj <= bi;
    assert j in bi && j !in bj;
    SubsetCardinality(bj, bi);
  }

  /**
   * Ranking with ties broken by order of appearance: a smaller value gets a smaller
   * rank, equal values get increasing ranks in row order, and no two rows share a rank.
   */
  lemma FirstRankOrder(vals: seq<int>, i: int, j: int)
    requires 0 <= i < |vals| && 0 <= j < |vals| && i != j
    ensures 1 <= FirstRanks(vals)[i] <= |vals|
    ensures vals[i] < vals[j] ==> FirstRanks(vals)[i] < FirstRanks(vals)[j]
    ensures vals[i] == vals[j] && i < j ==> FirstRanks(vals)[i] < FirstRanks(vals)[j]
    ensures FirstRanks(vals)[i] != FirstRanks(vals)[j]
  {
    RankBounds(vals, i);
    if Precedes(vals, i, j) {
      RankOrder(vals, i, j);
    } else {
      RankOrder(vals, j, i);
    }
  }

  /** The ranks of n rows are exactly 1, 2, ..., n, each once. */
  lemma RanksArePermutation(vals: seq<int>)
    ensures Members(FirstRanks(vals)) == Span(1, |vals| + 1)
  {
    var ranks := FirstRanks(vals);
    var n := |vals|;
    var image := Members(ranks);
    forall k | k in image ensures k in Span(1, n + 1) {
      var i :| 0 <= i < n && ranks[i] == k;
      RankBounds(vals, i);
    }
    InjectiveImage(vals);
    SubsetCardinality(image, Span(1, n + 1));
  }

  lemma InjectiveImage(vals: seq<int>)
    ensures |Members(FirstRanks(vals))| == |vals|
  {
    var ranks := FirstRanks(vals);
    forall i, j | 0 <= i < j < |ranks| ensures ranks[i] != ranks[j] {
      FirstRankOrder(vals, i, j);
    }
    DistinctCardinality(ranks);
  }

  /** A column with no missing cell. */
  function AllPresent(vals: seq<int>): (xs: seq<Option<int>>)
    ensures |xs| == |vals|
    ensures forall i :: 0 <= i < |vals| ==> xs[i] == Some(vals[i])
  {
    seq(|vals|, i requires 0 <= i < |vals| => Some(vals[i]))
  }

  /** The present values of a column with no missing cell are the column itself. */
  lemma {:induction false} PresentAll(vals: seq<int>)
    ensures Present(AllPresent(vals)) == vals
    decreases |vals|
  {
    if vals != [] {
      var init := vals[..|vals| - 1];
      var xs := AllPresent(vals);
      assert xs[..|xs| - 1] == AllPresent(init);
      assert Present(xs) == Present(AllPresent(init)) + [vals[|vals| - 1]];
      PresentAll(init);
      assert vals == init + [vals[|vals| - 1]];
    }
  }

  /** A value that a sequence holds at two different places occurs at least twice. */
  lemma RepeatMultiplicity(s: seq<int>, i: int, j: int)
    requires 0 <= i < j < |s| && s[i] == s[j]
    ensures multiset(s)[s[i]] >= 2
  {
    assert s == s[..j] + s[j..];
    assert s[i] in s[..j] && s[j] in s[j..];
    assert multiset(s) == multiset(s[..j]) + multiset(s[j..]);
  }

  /** A value that a sequence without repetitions holds occurs once. */
  lemma {:induction false} DistinctMultiplicity(s: seq<int>, v: int)
    requires forall i, j :: 0 <= i < j < |s| ==> s[i] != s[j]
    ensures multiset(s)[v] <= 1
    decreases |s|
  {
    if s != [] {
      var init, last := s[..|s| - 1], s[|s| - 1];
      assert s == init + [last];
      DistinctMultiplicity(init, v);
      if last == v {
        assert v !in init;
      }
    }
  }

  /** A sorted arrangement of a sequence without repetitions is strictly ascending. */
  lemma SortedDistinct(xs: seq<int>, s: seq<int>)
    requires forall i, j :: 0 <= i < j < |xs| ==> xs[i] != xs[j]
    requires Sorted(s) && multiset(s) == multiset(xs)
    ensures forall k :: 0 <= k < |s| - 1 ==> s[k] < s[k + 1]
  {
    forall k | 0 <= k < |s| - 1 ensures s[k] < s[k + 1] {
      if s[k] == s[k + 1] {
        RepeatMultiplicity(s, k, k + 1);
        DistinctMultiplicity(xs, s[k]);
        assert false;
      }
    }
  }

  /** In a strictly ascending sequence of whole numbers the values are at least as far apart as the places. */
  lemma {:induction false} StrictGap(s: seq<int>, i: int, j: int)
    requires forall k :: 0 <= k < |s| - 1 ==> s[k] < s[k + 1]
    requires 0 <= i <= j < |s|
    ensures s[j] - s[i] >= j - i
    decreases j - i
  {
    if i < j {
      StrictGap(s, i, j - 1);
    }
  }

  /** n strictly ascending whole numbers between 1 and n are 1, 2, ..., n. */
  lemma AscendingFill(s: seq<int>)
    requires forall k :: 0 <= k < |s| - 1 ==> s[k] < s[k + 1]
    requires forall k :: 0 <= k < |s| ==> 1 <= s[k] <= |s|
    ensures forall i :: 0 <= i < |s| ==> s[i] == i + 1
  {
    forall i | 0 <= i < |s| ensures s[i] == i + 1 {
      StrictGap(s, 0, i);
      StrictGap(s, i, |s| - 1);
    }
  }

  /** Sorted, the ranks of n rows are 1, 2, ..., n. */
  lemma SortedRanks(vals: seq<int>)
    ensures var s := Sort(FirstRanks(vals));
      |s| == |vals| && forall i :: 0 <= i < |s| ==> s[i] == i + 1
  {
    var ranks := FirstRanks(vals);
    var s := Sort(ranks);
    var n := |vals|;
    SortSpec(ranks);
    forall i, j | 0 <= i < j < n ensures ranks[i] != ranks[j] {
      FirstRankOrder(vals, i, j);
    }
    SortedDistinct(ranks, s);
    forall i | 0 <= i < n ensures 1 <= s[i] <= n {
      assert s[i] in multiset(ranks);
      var k :| 0 <= k < n && ranks[k] == s[i];
      RankBounds(vals, k);
    }
    assert forall k :: 0 <= k < |s| ==> 1 <= s[k] <= |s|;
    AscendingFill(s);
  }

  /** The quantile b/4 of 1, 2, ..., n, scaled by four, is 4 + b(n - 1). */
  lemma CountingEdge(s: seq<int>, b: int)
    requires |s| >= 1 && 0 <= b <= 4
    requires forall i :: 0 <= i < |s| ==> s[i] == i + 1
    ensures Edge4(s, b) == 4 + Position(b, |s|)
  {
    var t := Position(b, |s|);
    var j, r := t / 4, t % 4;
    assert t == 4 * j + r;
    assert s[j] == j + 1;
    if r != 0 {
      assert s[j + 1] == j + 2;
    }
  }

  /** The five edges of 1, 2, ..., n, scaled by four. */
  lemma CountingEdges(s: seq<int>)
    requires |s| >= 1
    requires forall i :: 0 <= i < |s| ==> s[i] == i + 1
    ensures var e, n := Edges(s), |s|;
      e[0] == 4 && e[1] == n + 3 && e[2] == 2 * n + 2 && e[3] == 3 * n + 1 && e[4] == 4 * n
  {
    CountingEdge(s, 0);
    CountingEdge(s, 1);
    CountingEdge(s, 2);
    CountingEdge(s, 3);
    CountingEdge(s, 4);
  }

  /**
   * The quartile edges of the ranks 1..n (scaled by four) are 4 + b(n - 1) for b = 0..4,
   * so they are distinct exactly when there are at least two rows.
   */
  lemma RankEdges(vals: seq<int>)
    requires |vals| >= 1
    ensures var e, n := Edges(Sort(FirstRanks(vals))), |vals|;
      e[0] == 4 && e[1] == n + 3 && e[2] == 2 * n + 2 && e[3] == 3 * n + 1 && e[4] == 4 * n
  {
    SortedRanks(vals);
    CountingEdges(Sort(FirstRanks(vals)));
  }

  /**
   * The quartile of rank k among n ranks: the first quarter whose upper edge
   * 1 + b(n - 1)/4 reaches k.
   */
  function RankQuartile(k: int, n: int): (b: Quartile)
    requires n >= 1
  {
    if 4 * (k - 1) <= n - 1 then 1
    else if 4 * (k - 1) <= 2 * (n - 1) then 2
    else if 4 * (k - 1) <= 3 * (n - 1) then 3
    else 4
  }

  /** Against the edges of 1..n, a rank falls in the bin of its quartile. */
  lemma RankBin(k: int, n: int, e: seq<int>)
    requires n >= 1 && |e| == 5
    requires e[1] == n + 3 && e[2] == 2 * n + 2 && e[3] == 3 * n + 1
    ensures Bin(4 * k, e) == RankQuartile(k, n)
  {
  }

  /** The edges of the ranks of n rows are distinct exactly when n >= 2. */
  lemma RankEdgesDistinct(vals: seq<int>)
    requires |vals| >= 1
    ensures DistinctEdges(Edges(Sort(FirstRanks(vals)))) <==> |vals| >= 2
  {
    RankEdges(vals);
  }

  /**
   * Cutting the ranks of the rows into quartiles fails exactly when there is a single
   * row, because then all five edges coincide.
   */
  lemma RankCutSucceeds(vals: seq<int>, labels: seq<Quartile>)
    requires |labels| == 4 && |vals| >= 1
    ensures QCut(AllPresent(FirstRanks(vals)), labels).Some? <==> |vals| >= 2
  {
    var ranks := FirstRanks(vals);
    var xs := AllPresent(ranks);
    PresentAll(ranks);
    RankEdgesDistinct(vals);
    var p := Present(xs);
    assert p == ranks && p != [];
    assert QCut(xs, labels).Some? <==> DistinctEdges(Edges(Sort(p)));
  }

  /** The edges of the ranks, seen as a column with no missing cell. */
  lemma RankColumnEdges(vals: seq<int>)
    requires |vals| >= 1
    ensures var e, n := Edges(Sort(Present(AllPresent(FirstRanks(vals))))), |vals|;
      e[1] == n + 3 && e[2] == 2 * n + 2 && e[3] == 3 * n + 1
  {
    PresentAll(FirstRanks(vals));
    RankEdges(vals);
  }

  /** A successful cut of the ranks gives each row the label of its rank's quartile. */
  lemma RankCutLabel(vals: seq<int>, labels: seq<Quartile>, i: int)
    requires |labels| == 4 && 0 <= i < |vals|
    requires QCut(AllPresent(FirstRanks(vals)), labels).Some?
    ensures QCut(AllPresent(FirstRanks(vals)), labels).value[i]
      == Label(labels[RankQuartile(FirstRanks(vals)[i], |vals|) - 1])
  {
    var k := FirstRanks(vals)[i];
    var xs := AllPresent(FirstRanks(vals));
    var e := Edges(Sort(Present(xs)));
    RankColumnEdges(vals);
    RankBin(k, |vals|, e);
    LabelledAt(xs, labels, e, i);
  }

  /**
   * Quartiles over ranks are as even as whole rows allow: the ranks in the first b
   * quarters are exactly 1 .. 1 + b(n - 1)/4 (whole-number division), and that bound
   * never passes n.
   */
  lemma RankQuartileSizes(n: int, b: int, k: int)
    requires n >= 1 && 1 <= b <= 4 && 1 <= k <= n
    ensures RankQuartile(k, n) <= b <==> k <= 1 + Position(b, n) / 4
    ensures 1 + Position(b, n) / 4 <= n
  {
  }
}
