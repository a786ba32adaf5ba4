/** What the sort package promises: a sorted permutation. */
module Sorting {
  ghost predicate TotalPreorder<T(!new)>(le: (T, T) -> bool) {
    && (forall a, b :: le(a, b) || le(b, a))
    && (forall a, b, c | le(a, b) && le(b, c) :: le(a, c))
  }

  ghost predicate Sorted<T>(le: (T, T) -> bool, s: seq<T>) {
    forall i, j | 0 <= i < j < |s| :: le(s[i], s[j])
  }

  function Insert<T>(le: (T, T) -> bool, x: T, s: seq<T>): seq<T> {
    if s == [] then [x]
    else if le(x, s[0]) then [x] + s
    else [s[0]] + Insert(le, x, s[1..])
  }

  function Sort<T>(le: (T, T) -> bool, s: seq<T>): seq<T> {
    if s == [] then [] else Insert(le, s[0], Sort(le, s[1..]))
  }

  lemma {:induction false} InsertKeeps<T>(le: (T, T) -> bool, x: T, s: seq<T>)
    ensures multiset(Insert(le, x, s)) == multiset(s) + multiset{x}
    ensures forall i | 0 <= i < |Insert(le, x, s)| :: Insert(le, x, s)[i] == x || Insert(le, x, s)[i] in s
  {
    if s != [] && !le(x, s[0]) {
      InsertKeeps(le, x, s[1..]);
      assert s == [s[0]] + s[1..];
    }
  }

  lemma Chain<T(!new)>(le: (T, T) -> bool, a: T, b: T, c: T)
    requires TotalPreorder(le)
    ensures le(a, b) && le(b, c) ==> le(a, c)
    ensures !le(a, b) ==> le(b, a)
  {
  }

  lemma {:induction false} InsertSorts<T(!new)>(le: (T, T) -> bool, x: T, s: seq<T>)
    requires TotalPreorder(le) && Sorted(le, s)
    ensures Sorted(le, Insert(le, x, s))
  {
    if s != [] {
      Chain(le, x, s[0], x);
      if le(x, s[0]) {
        forall j | 0 <= j < |s| ensures le(x, s[j]) {
          Chain(le, x, s[0], s[j]);
        }
      } else {
        var r := Insert(le, x, s[1..]);
        InsertSorts(le, x, s[1..]);
        InsertKeeps(le, x, s[1..]);
        forall j | 0 <= j < |r| ensures le(s[0], r[j]) {
          if r[j] != x {
            var k :| 0 <= k < |s[1..]| && s[1..][k] == r[j];
            assert s[k + 1] == r[j];
          }
        }
        PrependSorted(le, s[0], r);
      }
    }
  }

  lemma PrependSorted<T>(le: (T, T) -> bool, y: T, r: seq<T>)
    requires Sorted(le, r) && forall j | 0 <= j < |r| :: le(y, r[j])
    ensures Sorted(le, [y] + r)
  {
  }

  lemma {:induction false} SortSorts<T(!new)>(le: (T, T) -> bool, s: seq<T>)
    requires TotalPreorder(le)
    ensures Sorted(le, Sort(le, s)) && multiset(Sort(le, s)) == multiset(s)
  {
    if s != [] {
      SortSorts(le, s[1..]);
      InsertSorts(le, s[0], Sort(le, s[1..]));
      InsertKeeps(le, s[0], Sort(le, s[1..]));
      assert s == [s[0]] + s[1..];
    }
  }

  lemma SortKeepsElements<T(!new)>(le: (T, T) -> bool, s: seq<T>, x: T)
    requires TotalPreorder(le)
    ensures |Sort(le, s)| == |s| && (x in Sort(le, s) <==> x in s)
  {
    SortSorts(le, s);
    assert |multiset(Sort(le, s))| == |Sort(le, s)|;
    assert x in multiset(s) <==> x in multiset(Sort(le, s));
  }
}
