/** Gap and duplicate analysis of one instance's sequence numbers (cmd/acb-verify/main.go). */
module SeqAnalysis {
  import opened Base
  import opened Sorting

  datatype Finding = Duplicate(at: int) | Gap(from: int, to: int, missing: int)

  predicate IsUint64(x: int) {
    0 <= x < TWO_64
  }

  /** uint64 subtraction wraps. */
  function SubUint64(a: int, b: int): int {
    (a - b) % TWO_64
  }

  function Le(): (int, int) -> bool {
    (a, b) => a <= b
  }

  lemma LeOrders()
    ensures TotalPreorder(Le())
  {
  }

  function Elements(s: seq<int>): set<int> {
    set x | x in s
  }

  /** What the scan of a sorted list reports, pair by pair. */
  function Findings(s: seq<int>): seq<Finding> {
    if |s| < 2 then []
    else
      var n := |s| - 1;
      var d := SubUint64(s[n], s[n - 1]);
      Findings(s[..n]) + if d == 0 then [Duplicate(s[n])] else if d > 1 then [Gap(s[n - 1], s[n], d - 1)] else []
  }

  function Duplicates(r: seq<Finding>): nat {
    if r == [] then 0
    else Duplicates(r[..|r| - 1]) + if r[|r| - 1].Duplicate? then 1 else 0
  }

  function Gaps(r: seq<Finding>): nat {
    if r == [] then 0
    else Gaps(r[..|r| - 1]) + if r[|r| - 1].Gap? then 1 else 0
  }

  /** The total of the "missing" counts the report prints. */
  function Missing(r: seq<Finding>): int {
    if r == [] then 0
    else Missing(r[..|r| - 1]) + if r[|r| - 1].Gap? then r[|r| - 1].missing else 0
  }

  lemma OneMoreFinding(r: seq<Finding>, f: Finding)
    ensures Duplicates(r + [f]) == Duplicates(r) + if f.Duplicate? then 1 else 0
    ensures Gaps(r + [f]) == Gaps(r) + if f.Gap? then 1 else 0
    ensures Missing(r + [f]) == Missing(r) + if f.Gap? then f.missing else 0
  {
    assert (r + [f])[..|r|] == r;
  }

  /** In a sorted list the uint64 subtraction never wraps, and one more element adds what its
      distance from the previous one says. */
  lemma LastPair(s: seq<int>)
    requires |s| > 1 && s[|s| - 2] <= s[|s| - 1] && IsUint64(s[|s| - 2]) && IsUint64(s[|s| - 1])
    ensures var n := |s| - 1; var d := s[n] - s[n - 1]; var r, r' := Findings(s[..n]), Findings(s);
            && SubUint64(s[n], s[n - 1]) == d
            && Duplicates(r') == Duplicates(r) + (if d == 0 then 1 else 0)
            && Gaps(r') == Gaps(r) + (if d > 1 then 1 else 0)
            && Missing(r') == Missing(r) + (if d > 1 then d - 1 else 0)
  {
    var n := |s| - 1;
    var d, r := s[n] - s[n - 1], Findings(s[..n]);
    OneMoreFinding(r, Duplicate(s[n]));
    OneMoreFinding(r, Gap(s[n - 1], s[n], d - 1));
    assert r + [] == r;
  }

  /** The numbers strictly between lo and hi that are not in s. */
  ghost function Absent(s: set<int>, lo: int, hi: int): set<int> {
    set d | lo < d < hi && d !in s
  }

  /** The first number of each maximal run of absent ones between lo and hi. */
  ghost function RunStarts(s: set<int>, lo: int, hi: int): set<int> {
    set d | lo < d < hi && d !in s && Follows(s, d)
  }

  ghost predicate Follows(s: set<int>, d: int) {
    d - 1 in s
  }

  lemma {:induction false} CountBetween(lo: int, hi: int)
    requires lo < hi
    ensures |Absent({}, lo, hi)| == hi - lo - 1
    decreases hi - lo
  {
    if lo + 1 < hi {
      CountBetween(lo, hi - 1);
      assert Absent({}, lo, hi) == Absent({}, lo, hi - 1) + {hi - 1};
    } else {
      assert Absent({}, lo, hi) == {};
    }
  }

  /** What the findings of a sorted list amount to. */
  ghost predicate Explained(s: seq<int>) {
    var r, e := Findings(s), Elements(s);
    s != [] ==>
      && Duplicates(r) == |s| - |e|
      && Missing(r) == s[|s| - 1] - s[0] + 1 - |e|
      && Missing(r) == |Absent(e, s[0], s[|s| - 1])|
      && Gaps(r) == |RunStarts(e, s[0], s[|s| - 1])|
  }

  lemma OneMoreElement(s: seq<int>, n: nat)
    requires n < |s|
    ensures Elements(s[..n + 1]) == Elements(s[..n]) + {s[n]}
  {
    assert s[..n + 1] == s[..n] + [s[n]];
  }

  lemma {:induction false} SortedExplained(s: seq<int>)
    requires Sorted(Le(), s) && forall i | 0 <= i < |s| :: IsUint64(s[i])
    ensures Explained(s)
  {
    if |s| == 1 {
      assert Elements(s) == {s[0]};
      assert Absent({s[0]}, s[0], s[0]) == {} && RunStarts({s[0]}, s[0], s[0]) == {};
    } else if |s| > 1 {
      var n := |s| - 1;
      assert Le()(s[n - 1], s[n]);
      SortedExplained(s[..n]);
      LastPair(s);
      ElementsGrow(s);
    }
  }

  lemma ElementsGrow(s: seq<int>)
    requires |s| > 1 && Sorted(Le(), s)
    ensures var n := |s| - 1; var d := s[n] - s[n - 1]; var e, e' := Elements(s[..n]), Elements(s);
            && |e'| == |e| + (if d == 0 then 0 else 1)
            && |Absent(e', s[0], s[n])| == |Absent(e, s[0], s[n - 1])| + (if d > 1 then d - 1 else 0)
            && |RunStarts(e', s[0], s[n])| == |RunStarts(e, s[0], s[n - 1])| + (if d > 1 then 1 else 0)
  {
    var n := |s| - 1;
    var t := s[..n];
    OneMoreElement(s, n);
    assert s[..n + 1] == s && t[n - 1] == s[n - 1] && t[0] == s[0];
    assert Le()(s[n - 1], s[n]) && (n > 1 ==> Le()(s[0], s[n - 1]));
    forall x | x in t ensures x <= s[n - 1] {
      var i :| 0 <= i < |t| && t[i] == x;
      assert i < n - 1 ==> Le()(s[i], s[n - 1]);
    }
    if s[n] == s[n - 1] {
      assert Elements(s) == Elements(t);
    } else {
      SetGrows(Elements(t), s[0], s[n - 1], s[n]);
    }
  }

  lemma SetGrows(e: set<int>, lo: int, last: int, x: int)
    requires last in e && lo <= last < x && forall y | y in e :: y <= last
    ensures |e + {x}| == |e| + 1
    ensures |Absent(e + {x}, lo, x)| == |Absent(e, lo, last)| + (x - last - 1)
    ensures |RunStarts(e + {x}, lo, x)| == |RunStarts(e, lo, last)| + if x > last + 1 then 1 else 0
  {
    CountBetween(last, x);
    assert Absent(e + {x}, lo, x) == Absent(e, lo, last) + Absent({}, last, x);
    assert Absent(e, lo, last) !! Absent({}, last, x);
    if x > last + 1 {
      assert RunStarts(e + {x}, lo, x) == RunStarts(e, lo, last) + {last + 1};
    } else {
      assert RunStarts(e + {x}, lo, x) == RunStarts(e, lo, last);
    }
  }

  ghost predicate IsLeast(m: int, s: seq<int>) {
    m in s && forall x | x in s :: m <= x
  }

  ghost predicate IsGreatest(m: int, s: seq<int>) {
    m in s && forall x | x in s :: x <= m
  }

  lemma SortEnds(list: seq<int>)
    requires list != []
    ensures var s := Sort(Le(), list);
            && |s| == |list| && Sorted(Le(), s) && Elements(s) == Elements(list)
            && IsLeast(s[0], list) && IsGreatest(s[|s| - 1], list)
  {
    LeOrders();
    SortSorts(Le(), list);
    var s := Sort(Le(), list);
    SortKeepsElements(Le(), list, list[0]);
    forall x ensures x in s <==> x in list {
      SortKeepsElements(Le(), list, x);
    }
    assert s[0] in s && s[|s| - 1] in s;
    forall x | x in s ensures s[0] <= x <= s[|s| - 1] {
      var i :| 0 <= i < |s| && s[i] == x;
      assert 0 < i ==> Le()(s[0], s[i]);
      assert i < |s| - 1 ==> Le()(s[i], s[|s| - 1]);
    }
  }

  lemma SortedUint64(list: seq<int>)
    requires forall x | x in list :: IsUint64(x)
    ensures var s := Sort(Le(), list); forall i | 0 <= i < |s| :: IsUint64(s[i])
  {
    LeOrders();
    var s := Sort(Le(), list);
    forall i | 0 <= i < |s| ensures IsUint64(s[i]) {
      SortKeepsElements(Le(), list, s[i]);
    }
  }

  /** For every list of sequence numbers, in any order and with repeats: duplicates = length -
      distinct; missing = max - min + 1 - distinct = the absent numbers in between; gaps = the
      maximal runs of them. */
  lemma ReportIsExact(list: seq<int>, lo: int, hi: int)
    requires IsLeast(lo, list) && IsGreatest(hi, list) && forall x | x in list :: IsUint64(x)
    ensures var r, e := Findings(Sort(Le(), list)), Elements(list);
            && Duplicates(r) == |list| - |e|
            && Missing(r) == hi - lo + 1 - |e|
            && Missing(r) == |Absent(e, lo, hi)|
            && Gaps(r) == |RunStarts(e, lo, hi)|
  {
    SortEnds(list);
    SortedUint64(list);
    var s := Sort(Le(), list);
    assert s[0] == lo && s[|s| - 1] == hi;
    SortedExplained(s);
  }

  /** What one finding says about a list: a number seen again, or two numbers in it with so many
      missing between them and none present. */
  ghost predicate Tells(f: Finding, s: seq<int>) {
    && (f.Duplicate? ==> exists i, j :: 0 <= i < j < |s| && s[i] == f.at && s[j] == f.at)
    && (f.Gap? ==> f.from in s && f.to in s && f.missing == f.to - f.from - 1 && f.missing > 0 && forall x | f.from < x < f.to :: x !in s)
  }

  lemma {:induction false} SortedFindingsTell(s: seq<int>)
    requires Sorted(Le(), s) && forall i | 0 <= i < |s| :: IsUint64(s[i])
    ensures forall f | f in Findings(s) :: Tells(f, s)
  {
    if |s| > 1 {
      var n := |s| - 1;
      SortedFindingsTell(s[..n]);
      assert Le()(s[n - 1], s[n]);
      LastPair(s);
      forall f | f in Findings(s[..n]) ensures Tells(f, s) {
        StillTells(f, s);
      }
      LastPairTells(s);
    }
  }

  /** The last two numbers of a sorted list are neighbours. */
  lemma LastPairTells(s: seq<int>)
    requires |s| > 1 && Sorted(Le(), s)
    ensures var n := |s| - 1; var d := s[n] - s[n - 1];
            d >= 0 && (d == 0 ==> Tells(Duplicate(s[n]), s)) && (d > 1 ==> Tells(Gap(s[n - 1], s[n], d - 1), s))
  {
    var n := |s| - 1;
    assert Le()(s[n - 1], s[n]) && forall i | 0 <= i < n - 1 :: Le()(s[i], s[n - 1]);
    assert forall x | x in s :: x <= s[n - 1] || x == s[n];
    assert s[n - 1] in s && s[n] in s;
  }

  lemma StillTells(f: Finding, s: seq<int>)
    requires s != [] && Sorted(Le(), s) && Tells(f, s[..|s| - 1])
    ensures Tells(f, s)
  {
    var n := |s| - 1;
    match f
    case Duplicate(x) =>
      var i, j :| 0 <= i < j < n && s[..n][i] == x && s[..n][j] == x;
      assert s[i] == x && s[j] == x;
    case Gap(a, b, m) =>
      var i :| 0 <= i < n && s[..n][i] == b;
      assert Le()(s[i], s[n]) && s[i] == b;
      assert forall x | a < x < b :: x !in s[..n] && x != s[n];
      assert s == s[..n] + [s[n]];
  }

  /** Every finding the verifier prints for a list, in any order, says what is the case. */
  lemma FindingsTell(list: seq<int>, f: Finding)
    requires list != [] && (forall x | x in list :: IsUint64(x)) && f in Findings(Sort(Le(), list))
    ensures f.Duplicate? ==> multiset(list)[f.at] > 1
    ensures f.Gap? ==> f.from in list && f.to in list && f.missing == f.to - f.from - 1 && f.missing > 0
    ensures f.Gap? ==> forall x | f.from < x < f.to :: x !in list
  {
    var s := Sort(Le(), list);
    LeOrders();
    SortSorts(Le(), list);
    SortedUint64(list);
    SortedFindingsTell(s);
    forall x ensures x in s <==> x in list {
      SortKeepsElements(Le(), list, x);
    }
    if f.Duplicate? {
      var i, j :| 0 <= i < j < |s| && s[i] == f.at && s[j] == f.at;
      TwiceCounts(s, i, j);
    }
  }

  lemma TwiceCounts(s: seq<int>, i: nat, j: nat)
    requires i < j < |s| && s[i] == s[j]
    ensures multiset(s)[s[i]] > 1
  {
    assert s == s[..j] + [s[j]] + s[j + 1..] && s[i] == s[..j][i];
    assert multiset(s) == multiset(s[..j]) + multiset{s[j]} + multiset(s[j + 1..]);
    assert s[i] in multiset(s[..j]);
  }

  function Interval(lo: int, n: nat): seq<int> {
    seq(n, i => lo + i)
  }

  lemma {:induction false} SilentMeansInterval(s: seq<int>)
    requires s != [] && Sorted(Le(), s) && forall i | 0 <= i < |s| :: IsUint64(s[i])
    ensures Missing(Findings(s)) >= 0
    ensures Duplicates(Findings(s)) == 0 && Missing(Findings(s)) == 0 <==> s == Interval(s[0], |s|)
  {
    var n := |s| - 1;
    if n > 0 {
      var t := s[..n];
      SilentMeansInterval(t);
      assert Le()(s[n - 1], s[n]);
      LastPair(s);
      if t == Interval(s[0], n) && s[n] - s[n - 1] == 1 {
        assert s[n - 1] == t[n - 1] && forall i | 0 <= i < n :: s[i] == t[i];
        assert s == Interval(s[0], n + 1);
      }
      if s == Interval(s[0], n + 1) {
        assert s[n] == s[0] + n && s[n - 1] == s[0] + n - 1;
        assert t == Interval(s[0], n);
      }
    }
  }

  lemma {:induction false} SortedEqual(s: seq<int>, t: seq<int>)
    requires Sorted(Le(), s) && Sorted(Le(), t) && multiset(s) == multiset(t)
    ensures s == t
  {
    assert |multiset(s)| == |s| && |multiset(t)| == |t|;
    if s != [] {
      SameLeast(s, t);
      assert s == [s[0]] + s[1..] && t == [t[0]] + t[1..];
      assert multiset(s[1..]) == multiset(s) - multiset{s[0]};
      assert multiset(t[1..]) == multiset(t) - multiset{t[0]};
      SortedEqual(s[1..], t[1..]);
    }
  }

  lemma SameLeast(s: seq<int>, t: seq<int>)
    requires Sorted(Le(), s) && Sorted(Le(), t) && multiset(s) == multiset(t) && s != [] && t != []
    ensures s[0] == t[0]
  {
    assert s[0] in multiset(t) && t[0] in multiset(s);
    var i :| 0 <= i < |t| && t[i] == s[0];
    var j :| 0 <= j < |s| && s[j] == t[0];
    assert (i == 0 || Le()(t[0], t[i])) && (j == 0 || Le()(s[0], s[j]));
  }

  /** No duplicate and nothing missing is reported exactly for the permutations of an interval. */
  lemma SilentIffInterval(list: seq<int>)
    requires list != [] && forall x | x in list :: IsUint64(x)
    ensures var r := Findings(Sort(Le(), list));
            Duplicates(r) == 0 && Missing(r) == 0 <==> exists lo :: multiset(list) == multiset(Interval(lo, |list|))
  {
    SortEnds(list);
    LeOrders();
    SortSorts(Le(), list);
    SortedUint64(list);
    var s := Sort(Le(), list);
    SilentMeansInterval(s);
    if lo :| multiset(list) == multiset(Interval(lo, |list|)) {
      SortedEqual(s, Interval(lo, |list|));
      assert s[0] == lo;
    }
  }

  /** The per-instance part of the verifier: sort, then compare neighbours. */
  method Analyze(list: seq<int>) returns (report: seq<Finding>, gaps: nat, dups: nat)
    requires forall x | x in list :: IsUint64(x)
    ensures report == Findings(Sort(Le(), list))
    ensures gaps == Gaps(report) && dups == Duplicates(report)
  {
    var s := Sort(Le(), list);
    report, gaps, dups := [], 0, 0;
    if |s| > 0 {
      var i := 1;
      while i < |s|
        invariant 1 <= i <= |s|
        invariant report == Findings(s[..i])
        invariant gaps == Gaps(report) && dups == Duplicates(report)
      {
        var d := SubUint64(s[i], s[i - 1]);
        assert s[..i + 1][..i] == s[..i];
        ghost var before := report;
        if d == 0 {
          dups := dups + 1;
          report := report + [Duplicate(s[i])];
          OneMoreFinding(before, Duplicate(s[i]));
        } else if d > 1 {
          gaps := gaps + 1;
          report := report + [Gap(s[i - 1], s[i], d - 1)];
          OneMoreFinding(before, Gap(s[i - 1], s[i], d - 1));
        }
        i := i + 1;
      }
      assert s[..|s|] == s;
    }
  }
}
