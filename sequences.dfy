/** Facts about sequences shared by the name order and the ranking. */
module Sequences {

  /** The elements a sequence holds. */
  function Members<T>(s: seq<T>): set<T>
  {
    set x | x in s
  }

  /** A sequence without repetitions holds as many elements as it is long. */
  lemma {:induction false} DistinctCardinality<T>(s: seq<T>)
    requires forall i, j :: 0 <= i < j < |s| ==> s[i] != s[j]
    ensures |Members(s)| == |s|
    decreases |s|
  {
    if s != [] {
      var init := s[..|s| - 1];
      assert s == init + [s[|s| - 1]];
      assert Members(s) == Members(init) + {s[|s| - 1]};
      assert s[|s| - 1] !in Members(init);
      DistinctCardinality(init);
    }
  }
}
