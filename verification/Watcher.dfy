/** Hot reload of the policy file (internal/policy/watcher.go) and the reload report
    (cmd/broker/main.go). */
module Watcher {
  import opened Base
  import opened Policy
  import opened Sorting

  /** One poll of the file: it cannot be read, or it has some content. */
  datatype Read = Unreadable | Content(raw: string)

  datatype Callback = Reloaded(prev: Policy, next: Policy) | Failed(retained: Policy)

  /** The checksum of the last content looked at is modelled by that content: no two contents collide. */
  datatype Held = Held(current: Policy, lastSum: string)

  function ReloadNext(parse: string -> Option<Policy>, h: Held, r: Read): (Held, Option<Callback>) {
    match r
    case Unreadable => (h, Some(Failed(h.current)))
    case Content(raw) =>
      if raw == h.lastSum then (h, None)
      else
        match parse(raw)
        case None => (h.(lastSum := raw), Some(Failed(h.current)))
        case Some(next) => (Held(next, raw), Some(Reloaded(h.current, next)))
  }

  class Store {
    const parse: string -> Option<Policy>
    var current: Policy
    var lastSum: string

    ghost function State(): Held
      reads this
    {
      Held(current, lastSum)
    }

    constructor (parse: string -> Option<Policy>, raw: string)
      requires parse(raw).Some?
      ensures State() == Held(parse(raw).value, raw) && this.parse == parse
    {
      this.parse := parse;
      current := parse(raw).value;
      lastSum := raw;
    }

    method ReloadIfChanged(read: Read) returns (cb: Option<Callback>)
      modifies this
      ensures (State(), cb) == ReloadNext(parse, old(State()), read)
      ensures cb.Some? && cb.value.Failed? ==> cb.value.retained == current == old(current)
    {
      if read.Unreadable? {
        return Some(Failed(current));
      }
      if read.raw == lastSum {
        return None;
      }
      var next := parse(read.raw);
      if next.None? {
        lastSum := read.raw;
        return Some(Failed(current));
      }
      var was := current;
      current := next.value;
      lastSum := read.raw;
      return Some(Reloaded(was, next.value));
    }
  }

  /** NewStore: no store, by design, from a file that cannot be read or does not parse. */
  method NewStore(parse: string -> Option<Policy>, read: Read) returns (s: Store?)
    ensures s != null <==> read.Content? && parse(read.raw).Some?
    ensures s != null ==> fresh(s) && s.parse == parse && s.State() == Held(parse(read.raw).value, read.raw)
  {
    if read.Unreadable? {
      return null;
    }
    if parse(read.raw).None? {
      return null;
    }
    s := new Store(parse, read.raw);
  }

  // ----- Whole runs of polls -----

  function HeldAfter(parse: string -> Option<Policy>, start: string, polls: seq<Read>): Held
    requires parse(start).Some?
  {
    if polls == [] then Held(parse(start).value, start)
    else ReloadNext(parse, HeldAfter(parse, start, polls[..|polls| - 1]), polls[|polls| - 1]).0
  }

  /** The reload callbacks of a run, in order. */
  function Reloads(parse: string -> Option<Policy>, start: string, polls: seq<Read>): seq<(Policy, Policy)>
    requires parse(start).Some?
  {
    if polls == [] then []
    else
      var n := |polls| - 1;
      var cb := ReloadNext(parse, HeldAfter(parse, start, polls[..n]), polls[n]).1;
      Reloads(parse, start, polls[..n]) + if cb.Some? && cb.value.Reloaded? then [(cb.value.prev, cb.value.next)] else []
  }

  /** The last content of the run, startup included, that parses. */
  function LastValid(parse: string -> Option<Policy>, start: string, polls: seq<Read>): string {
    if polls == [] then start
    else
      var r := polls[|polls| - 1];
      if r.Content? && parse(r.raw).Some? then r.raw else LastValid(parse, start, polls[..|polls| - 1])
  }

  lemma {:induction false} CurrentIsLastValid(parse: string -> Option<Policy>, start: string, polls: seq<Read>)
    requires parse(start).Some?
    ensures parse(LastValid(parse, start, polls)) == Some(HeldAfter(parse, start, polls).current)
    ensures var h := HeldAfter(parse, start, polls); parse(h.lastSum).Some? ==> parse(h.lastSum) == Some(h.current)
  {
    if polls != [] {
      CurrentIsLastValid(parse, start, polls[..|polls| - 1]);
    }
  }

  /** The last content of the run, startup included, that could be read. */
  function LastSeen(start: string, polls: seq<Read>): string {
    if polls == [] then start
    else
      var r := polls[|polls| - 1];
      if r.Content? then r.raw else LastSeen(start, polls[..|polls| - 1])
  }

  lemma {:induction false} SumIsLastSeen(parse: string -> Option<Policy>, start: string, polls: seq<Read>)
    requires parse(start).Some?
    ensures HeldAfter(parse, start, polls).lastSum == LastSeen(start, polls)
  {
    if polls != [] {
      SumIsLastSeen(parse, start, polls[..|polls| - 1]);
    }
  }

  /** After any run of polls, the next one is silent exactly if it reads what was last seen, reloads
      exactly if it reads something else that parses, and reports a failure otherwise; either report
      names the policy in force, the last content that parsed. */
  lemma CallbackExactly(parse: string -> Option<Policy>, start: string, polls: seq<Read>, r: Read)
    requires parse(start).Some?
    ensures var cb := ReloadNext(parse, HeldAfter(parse, start, polls), r).1; var inForce := parse(LastValid(parse, start, polls));
            && inForce.Some?
            && (cb.None? <==> r.Content? && r.raw == LastSeen(start, polls))
            && (forall next :: cb == Some(Reloaded(inForce.value, next)) <==> r.Content? && r.raw != LastSeen(start, polls) && parse(r.raw) == Some(next))
            && (cb == Some(Failed(inForce.value)) <==> r.Unreadable? || (r.raw != LastSeen(start, polls) && parse(r.raw).None?))
  {
    SumIsLastSeen(parse, start, polls);
    CurrentIsLastValid(parse, start, polls);
  }

  /** Each reload starts from the policy the previous one ended with. */
  ghost predicate IsChain(first: Policy, reloads: seq<(Policy, Policy)>, last: Policy) {
    if reloads == [] then first == last
    else
      var n := |reloads| - 1;
      reloads[n].1 == last && IsChain(first, reloads[..n], reloads[n].0)
  }

  lemma {:induction false} ReloadsChain(parse: string -> Option<Policy>, start: string, polls: seq<Read>)
    requires parse(start).Some?
    ensures IsChain(parse(start).value, Reloads(parse, start, polls), HeldAfter(parse, start, polls).current)
  {
    if polls != [] {
      var n := |polls| - 1;
      ReloadsChain(parse, start, polls[..n]);
      var before := Reloads(parse, start, polls[..n]);
      var cb := ReloadNext(parse, HeldAfter(parse, start, polls[..n]), polls[n]).1;
      if cb.Some? && cb.value.Reloaded? {
        assert (before + [(cb.value.prev, cb.value.next)])[..|before|] == before;
      } else {
        assert Reloads(parse, start, polls) == before;
      }
    }
  }

  // ----- The reload report -----

  /** The elements of xs that are not in ys, in the order of xs. */
  function Minus(xs: seq<string>, ys: seq<string>): seq<string> {
    if xs == [] then []
    else
      var n := |xs| - 1;
      Minus(xs[..n], ys) + if xs[n] in ys then [] else [xs[n]]
  }

  method DiffSorted(prev: seq<string>, next: seq<string>) returns (added: seq<string>, removed: seq<string>)
    ensures added == Minus(next, prev) && removed == Minus(prev, next)
  {
    var inOld: set<string> := {};
    for i := 0 to |prev|
      invariant inOld == set x | x in prev[..i]
    {
      inOld := inOld + {prev[i]};
    }
    assert prev[..|prev|] == prev;
    var inNext: set<string> := {};
    added := [];
    for i := 0 to |next|
      invariant inNext == set x | x in next[..i]
      invariant added == Minus(next[..i], prev)
    {
      assert next[..i + 1][..i] == next[..i];
      inNext := inNext + {next[i]};
      if next[i] !in inOld {
        added := added + [next[i]];
      }
    }
    assert next[..|next|] == next;
    removed := [];
    for i := 0 to |prev|
      invariant removed == Minus(prev[..i], next)
    {
      assert prev[..i + 1][..i] == prev[..i];
      if prev[i] !in inNext {
        removed := removed + [prev[i]];
      }
    }
  }

  lemma {:induction false} MinusElements(xs: seq<string>, ys: seq<string>)
    ensures (set x | x in Minus(xs, ys)) == (set x | x in xs) - (set x | x in ys)
  {
    if xs != [] {
      var n := |xs| - 1;
      MinusElements(xs[..n], ys);
      assert xs == xs[..n] + [xs[n]];
      var m := Minus(xs[..n], ys);
      assert forall x :: x in Minus(xs, ys) <==> x in m || (x == xs[n] && x !in ys);
      assert forall x :: x in m <==> x in (set y | y in m);
      assert forall x :: x in xs[..n] && x !in ys <==> x in (set y | y in xs[..n]) - (set y | y in ys);
    }
  }

  /** The order of sort.Strings: bytes of UTF-8 compare as code points do. */
  predicate NameLe(a: string, b: string) {
    if a == [] then true
    else if b == [] then false
    else if a[0] == b[0] then NameLe(a[1..], b[1..])
    else a[0] < b[0]
  }

  lemma {:induction false} NameLeTotal(a: string, b: string)
    ensures NameLe(a, b) || NameLe(b, a)
  {
    if a != [] && b != [] && a[0] == b[0] {
      NameLeTotal(a[1..], b[1..]);
    }
  }

  lemma {:induction false} NameLeTrans(a: string, b: string, c: string)
    requires NameLe(a, b) && NameLe(b, c)
    ensures NameLe(a, c)
  {
    if a != [] && a[0] == b[0] == c[0] {
      NameLeTrans(a[1..], b[1..], c[1..]);
    }
  }

  function ByName(): (string, string) -> bool {
    (a: string, b: string) => NameLe(a, b)
  }

  lemma ByNameOrders()
    ensures TotalPreorder(ByName())
  {
    forall a: string, b: string ensures ByName()(a, b) || ByName()(b, a) {
      NameLeTotal(a, b);
    }
    forall a: string, b: string, c: string | ByName()(a, b) && ByName()(b, c) ensures ByName()(a, c) {
      NameLeTrans(a, b, c);
    }
  }

  ghost predicate NoRepeats(keys: seq<string>) {
    forall i, j | 0 <= i < j < |keys| :: keys[i] != keys[j]
  }

  lemma {:induction false} RepeatsCount(keys: seq<string>)
    ensures NoRepeats(keys) <==> forall x :: multiset(keys)[x] <= 1
  {
    if keys != [] {
      var n := |keys| - 1;
      var before, last := keys[..n], keys[n];
      RepeatsCount(before);
      assert keys == before + [last];
      assert multiset(keys) == multiset(before) + multiset{last};
      if NoRepeats(keys) {
        assert last !in before;
        assert NoRepeats(before);
      }
      if forall x :: multiset(keys)[x] <= 1 {
        assert forall x :: multiset(before)[x] <= multiset(keys)[x];
        assert multiset(keys)[last] <= 1 && last !in multiset(before);
      }
    }
  }

  /** Sorting keeps the elements, and keeps them apart. */
  lemma SortedKeys(keys: seq<string>)
    requires NoRepeats(keys)
    ensures var s := Sort(ByName(), keys); Sorted(ByName(), s) && NoRepeats(s) && forall x :: x in s <==> x in keys
  {
    var s := Sort(ByName(), keys);
    ByNameOrders();
    SortSorts(ByName(), keys);
    RepeatsCount(keys);
    RepeatsCount(s);
    forall x ensures x in s <==> x in keys {
      SortKeepsElements(ByName(), keys, x);
    }
  }

  /** SubjectKeys and ScopeNames: the keys of an index map, each once, sorted. */
  method KeysOf<T>(m: map<string, T>) returns (keys: seq<string>)
    ensures (set x | x in keys) == m.Keys && NoRepeats(keys) && Sorted(ByName(), keys)
  {
    keys := [];
    var todo := m.Keys;
    while todo != {}
      invariant todo <= m.Keys && forall x :: x in keys <==> x in m && x !in todo
      invariant NoRepeats(keys)
      decreases |todo|
    {
      var k :| k in todo;
      keys := keys + [k];
      todo := todo - {k};
    }
    SortedKeys(keys);
    keys := Sort(ByName(), keys);
  }

  lemma {:induction false} MinusSorted(xs: seq<string>, ys: seq<string>)
    requires Sorted(ByName(), xs)
    ensures Sorted(ByName(), Minus(xs, ys)) && forall x | x in Minus(xs, ys) :: x in xs
  {
    if xs != [] {
      var n := |xs| - 1;
      MinusSorted(xs[..n], ys);
      assert forall x | x in xs[..n] :: ByName()(x, xs[n]);
    }
  }

  datatype Report = Report(
    oldHash: string, newHash: string,
    subjectsAdded: seq<string>, subjectsRemoved: seq<string>, scopesAdded: seq<string>, scopesRemoved: seq<string>)

  ghost function Elements(xs: seq<string>): set<string> {
    set x | x in xs
  }

  /** The report says how the subject and scope sets changed from one policy to the next, in order. */
  ghost predicate Reports(r: Report, prev: Policy, next: Policy) {
    && r.oldHash == prev.hash && r.newHash == next.hash
    && Sorted(ByName(), r.subjectsAdded) && Sorted(ByName(), r.subjectsRemoved)
    && Sorted(ByName(), r.scopesAdded) && Sorted(ByName(), r.scopesRemoved)
    && Elements(r.subjectsAdded) == next.grantBySubj.Keys - prev.grantBySubj.Keys
    && Elements(r.subjectsRemoved) == prev.grantBySubj.Keys - next.grantBySubj.Keys
    && Elements(r.scopesAdded) == next.scopeByName.Keys - prev.scopeByName.Keys
    && Elements(r.scopesRemoved) == prev.scopeByName.Keys - next.scopeByName.Keys
  }

  method OnReload(prev: Policy, next: Policy) returns (r: Report)
    ensures Reports(r, prev, next)
  {
    var oldSubjects := KeysOf(prev.grantBySubj);
    var newSubjects := KeysOf(next.grantBySubj);
    var oldScopes := KeysOf(prev.scopeByName);
    var newScopes := KeysOf(next.scopeByName);
    var subAdded, subRemoved := DiffSorted(oldSubjects, newSubjects);
    var scAdded, scRemoved := DiffSorted(oldScopes, newScopes);
    MinusElements(newSubjects, oldSubjects);
    MinusElements(oldSubjects, newSubjects);
    MinusElements(newScopes, oldScopes);
    MinusElements(oldScopes, newScopes);
    MinusSorted(newSubjects, oldSubjects);
    MinusSorted(oldSubjects, newSubjects);
    MinusSorted(newScopes, oldScopes);
    MinusSorted(oldScopes, newScopes);
    r := Report(prev.hash, next.hash, subAdded, subRemoved, scAdded, scRemoved);
  }

  /** Replays the reported changes over a starting set. */
  ghost function FoldSubjects(start: set<string>, reports: seq<Report>): set<string> {
    if reports == [] then start
    else
      var r := reports[|reports| - 1];
      FoldSubjects(start, reports[..|reports| - 1]) - Elements(r.subjectsRemoved) + Elements(r.subjectsAdded)
  }

  ghost function FoldScopes(start: set<string>, reports: seq<Report>): set<string> {
    if reports == [] then start
    else
      var r := reports[|reports| - 1];
      FoldScopes(start, reports[..|reports| - 1]) - Elements(r.scopesRemoved) + Elements(r.scopesAdded)
  }

  lemma {:induction false} FoldAlongChain(first: Policy, reloads: seq<(Policy, Policy)>, last: Policy, reports: seq<Report>)
    requires IsChain(first, reloads, last) && |reports| == |reloads|
    requires forall i | 0 <= i < |reloads| :: Reports(reports[i], reloads[i].0, reloads[i].1)
    ensures FoldSubjects(first.grantBySubj.Keys, reports) == last.grantBySubj.Keys
    ensures FoldScopes(first.scopeByName.Keys, reports) == last.scopeByName.Keys
  {
    if reloads != [] {
      var n := |reloads| - 1;
      FoldAlongChain(first, reloads[..n], reloads[n].0, reports[..n]);
      OneReport(reports[n], reloads[n].0, reloads[n].1);
    }
  }

  /** Replaying one report leads from one policy's sets to the next one's. */
  lemma OneReport(r: Report, prev: Policy, next: Policy)
    requires Reports(r, prev, next)
    ensures prev.grantBySubj.Keys - Elements(r.subjectsRemoved) + Elements(r.subjectsAdded) == next.grantBySubj.Keys
    ensures prev.scopeByName.Keys - Elements(r.scopesRemoved) + Elements(r.scopesAdded) == next.scopeByName.Keys
  {
  }

  /** Over every run of polls: the policy in force is the last content that parsed, the reload
      callbacks form a chain from the startup policy to it, and replaying their reports over the
      startup sets yields exactly its subjects and scopes. */
  lemma ReloadsAccountForPolicy(parse: string -> Option<Policy>, start: string, polls: seq<Read>, reports: seq<Report>)
    requires parse(start).Some?
    requires var reloads := Reloads(parse, start, polls);
             |reports| == |reloads| && forall i | 0 <= i < |reloads| :: Reports(reports[i], reloads[i].0, reloads[i].1)
    ensures var first, now := parse(start).value, HeldAfter(parse, start, polls).current;
            && parse(LastValid(parse, start, polls)) == Some(now)
            && IsChain(first, Reloads(parse, start, polls), now)
            && FoldSubjects(first.grantBySubj.Keys, reports) == now.grantBySubj.Keys
            && FoldScopes(first.scopeByName.Keys, reports) == now.scopeByName.Keys
  {
    CurrentIsLastValid(parse, start, polls);
    ReloadsChain(parse, start, polls);
    FoldAlongChain(parse(start).value, Reloads(parse, start, polls), HeldAfter(parse, start, polls).current, reports);
  }
}
