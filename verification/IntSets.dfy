/** Python's min, max, range and sorted on finite sets of integers. */
module IntSets {
  predicate Ascending(s: seq<int>) {
    forall i, j :: 0 <= i < j < |s| ==> s[i] < s[j]
  }

  ghost predicate IsMax(m: int, s: set<int>) { m in s && forall x :: x in s ==> x <= m }

  ghost predicate IsMin(m: int, s: set<int>) { m in s && forall x :: x in s ==> m <= x }

  lemma SomeElement(s: set<int>) returns (e: int)
    requires s != {}
    ensures e in s
  {
    assert (forall x :: x !in s) ==> s == {};
    e :| e in s;
  }

  lemma {:induction false} SomeMax(s: set<int>) returns (m: int)
    requires s != {}
    ensures IsMax(m, s)
  {
    m := SomeElement(s);
    if s != {m} {
      var rest := s - {m};
      assert s == rest + {m};
      var n := SomeMax(rest);
      if m < n { m := n; }
    }
  }

  lemma {:induction false} SomeMin(s: set<int>) returns (m: int)
    requires s != {}
    ensures IsMin(m, s)
  {
    m := SomeElement(s);
    if s != {m} {
      var rest := s - {m};
      assert s == rest + {m};
      var n := SomeMin(rest);
      if n < m { m := n; }
    }
  }

  lemma BoundsExist(s: set<int>)
    requires s != {}
    ensures exists m :: IsMax(m, s)
    ensures exists m :: IsMin(m, s)
  {
    var hi := SomeMax(s);
    var lo := SomeMin(s);
  }

  function MaxOf(s: set<int>): (m: int)
    requires s != {}
    ensures m in s && forall x :: x in s ==> x <= m
  {
    BoundsExist(s);
    assert exists m :: IsMax(m, s);
    var m :| m in s && forall x :: x in s ==> x <= m;
    m
  }

  function MinOf(s: set<int>): (m: int)
    requires s != {}
    ensures m in s && forall x :: x in s ==> m <= x
  {
    BoundsExist(s);
    assert exists m :: IsMin(m, s);
    var n :| n in s && forall x :: x in s ==> n <= x;
    n
  }

  /** set(range(lo, hi + 1)) */
  function RangeSet(lo: int, hi: int): (r: set<int>)
    ensures forall x :: x in r <==> lo <= x <= hi
    decreases hi - lo + 1
  {
    if lo > hi then {} else {lo} + RangeSet(lo + 1, hi)
  }

  lemma {:induction false} RangeSize(lo: int, hi: int)
    requires lo <= hi + 1
    ensures |RangeSet(lo, hi)| == hi - lo + 1
    decreases hi - lo + 1
  {
    if lo <= hi {
      RangeSize(lo, hi - 1);
      assert RangeSet(lo, hi) == RangeSet(lo, hi - 1) + {hi};
    }
  }

  /** [x for x in range(lo, hi + 1) if x not in s] */
  function Absent(s: set<int>, lo: int, hi: int): (r: seq<int>)
    ensures Ascending(r)
    ensures forall x :: x in r <==> lo <= x <= hi && x !in s
    decreases hi - lo + 1
  {
    if lo > hi then []
    else if lo in s then Absent(s, lo + 1, hi)
    else
      var rest := Absent(s, lo + 1, hi);
      assert forall i :: 0 <= i < |rest| ==> rest[i] in rest;
      [lo] + rest
  }

  /** sorted(s) */
  function Sorted(s: set<int>): (r: seq<int>)
    ensures Ascending(r) && |r| == |s|
    ensures forall x :: x in r <==> x in s
  {
    if s == {} then [] else
      var m := MinOf(s);
      [m] + Sorted(s - {m})
  }

  // ---- counting pairs ------------------------------------------------------------------

  /** The pairs (k, i) with i in [lo, hi). */
  ghost function Column(k: int, lo: int, hi: int): set<(int, int)> {
    set i | lo <= i < hi :: (k, i)
  }

  lemma {:induction false} ColumnSize(k: int, lo: int, hi: int)
    ensures |Column(k, lo, hi)| == if lo <= hi then hi - lo else 0
    decreases hi - lo
  {
    if lo < hi {
      ColumnSize(k, lo, hi - 1);
      assert Column(k, lo, hi) == Column(k, lo, hi - 1) + {(k, hi - 1)};
      assert (k, hi - 1) !in Column(k, lo, hi - 1);
    } else {
      assert Column(k, lo, hi) == {};
    }
  }

  /** A set of pairs grows by one more column. */
  lemma OneMoreColumn(before: set<(int, int)>, after: set<(int, int)>, k: int, lo: int, hi: int)
    requires forall q :: q in before ==> q.0 != k
    requires after == before + Column(k, lo, hi)
    ensures |after| == |before| + if lo <= hi then hi - lo else 0
  {
    ColumnSize(k, lo, hi);
    assert before !! Column(k, lo, hi);
  }
}
