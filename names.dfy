/**
 * The order of the aggregated table. Grouping by importer_name yields one row per
 * name in ascending order of the names, compared character by character on their
 * code points (a proper prefix comes first). That order decides how ties are broken
 * when Frequency and Monetary are ranked, so the model keeps it.
 */
module Names {
  import opened Sequences

  /** Code-point lexicographic order on strings. */
  predicate Below(a: string, b: string)
    decreases |a|
  {
    if a == [] then b != []
    else if b == [] then false
    else a[0] < b[0] || (a[0] == b[0] && Below(a[1..], b[1..]))
  }

  lemma {:induction false} BelowIrreflexive(a: string)
    ensures !Below(a, a)
    decreases |a|
  {
    if a != [] {
      BelowIrreflexive(a[1..]);
    }
  }

  lemma {:induction false} BelowTransitive(a: string, b: string, c: string)
    requires Below(a, b) && Below(b, c)
    ensures Below(a, c)
    decreases |a|
  {
    if a != [] && b != [] && c != [] && a[0] == b[0] == c[0] {
      BelowTransitive(a[1..], b[1..], c[1..]);
    }
  }

  /** Any two different names are ordered one way or the other. */
  lemma {:induction false} BelowTotal(a: string, b: string)
    requires a != b
    ensures Below(a, b) || Below(b, a)
    decreases |a|
  {
    if a != [] && b != [] && a[0] == b[0] {
      assert a == [a[0]] + a[1..] && b == [b[0]] + b[1..];
      BelowTotal(a[1..], b[1..]);
    }
  }

  /** Strictly ascending, hence also free of repetitions. */
  predicate Ascending(s: seq<string>)
  {
    forall i, j :: 0 <= i < j < |s| ==> Below(s[i], s[j])
  }

  lemma AscendingDistinct(s: seq<string>)
    requires Ascending(s)
    ensures forall i, j :: 0 <= i < j < |s| ==> s[i] != s[j]
  {
    forall i, j | 0 <= i < j < |s| ensures s[i] != s[j] {
      BelowIrreflexive(s[i]);
    }
  }

  lemma MembersCons(x: string, s: seq<string>)
    ensures Members([x] + s) == {x} + Members(s)
  {
    assert forall n :: n in [x] + s <==> n == x || n in s;
  }

  /** An ascending sequence stays ascending when a name below all of it is put in front. */
  lemma AscendingCons(x: string, s: seq<string>)
    requires Ascending(s)
    requires forall j :: 0 <= j < |s| ==> Below(x, s[j])
    ensures Ascending([x] + s)
  {
    var r := [x] + s;
    forall i, j | 0 <= i < j < |r| ensures Below(r[i], r[j]) {
      if i > 0 {
        assert r[i] == s[i - 1] && r[j] == s[j - 1];
      }
    }
  }

  /** Puts `x` in its place in an ascending sequence, unless it is already there. */
  function Insert(s: seq<string>, x: string): (r: seq<string>)
    requires Ascending(s)
    ensures Ascending(r)
    ensures Members(r) == Members(s) + {x}
    ensures |r| == if x in s then |s| else |s| + 1
  {
    if s == [] then [x]
    else if x == s[0] then s
    else if Below(x, s[0]) then
      assert forall j :: 0 <= j < |s| ==> Below(x, s[j]) by {
        forall j | 0 < j < |s| ensures Below(x, s[j]) {
          BelowTransitive(x, s[0], s[j]);
        }
      }
      BelowIrreflexive(x);
      AscendingCons(x, s);
      MembersCons(x, s);
      [x] + s
    else
      BelowTotal(x, s[0]);
      assert s == [s[0]] + s[1..];
      assert x in s <==> x in s[1..];
      MembersCons(s[0], s[1..]);
      var tail := Insert(s[1..], x);
      assert forall j :: 0 <= j < |tail| ==> Below(s[0], tail[j]) by {
        forall j | 0 <= j < |tail| ensures Below(s[0], tail[j]) {
          assert tail[j] in Members(tail);
        }
      }
      AscendingCons(s[0], tail);
      MembersCons(s[0], tail);
      [s[0]] + tail
  }

  /** The group keys of a column of names, in the order the grouped table lists them. */
  function GroupKeys(names: seq<string>): (keys: seq<string>)
    ensures Ascending(keys)
    ensures Members(keys) == Members(names)
  {
    if names == [] then []
    else Insert(GroupKeys(names[..|names| - 1]), names[|names| - 1])
  }

  /** Two ascending sequences holding the same names are the same sequence. */
  lemma {:induction false} AscendingUnique(s: seq<string>, t: seq<string>)
    requires Ascending(s) && Ascending(t)
    requires Members(s) == Members(t)
    ensures s == t
    decreases |s|
  {
    if s != [] {
      assert s[0] in Members(s);
    }
    if t != [] {
      assert t[0] in Members(t);
    }
    if s != [] && t != [] {
      assert s[0] in Members(t);
      assert t[0] in Members(s);
      if s[0] != t[0] {
        var i :| 0 <= i < |t| && t[i] == s[0];
        var j :| 0 <= j < |s| && s[j] == t[0];
        BelowTransitive(s[0], t[0], s[0]);
        BelowIrreflexive(s[0]);
      }
      AscendingDistinct(s);
      AscendingDistinct(t);
      assert Members(s[1..]) == Members(s) - {s[0]} by {
        assert s == [s[0]] + s[1..];
      }
      assert Members(t[1..]) == Members(t) - {t[0]} by {
        assert t == [t[0]] + t[1..];
      }
      AscendingUnique(s[1..], t[1..]);
    }
  }
}
