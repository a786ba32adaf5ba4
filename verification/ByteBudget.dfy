/** The daily claim-bytes budget (internal/ratelimit/ratelimit.go), with its int64 counter. */
module ByteBudget {
  import opened Base

  /** day is None until the first capped call, as the source's empty date string is. */
  datatype Budget = Budget(used: map<string, int>, day: Option<int>)

  datatype Charge = Charge(key: string, n: int, limit: int, at: int)

  /** The UTC date a clock reading falls on, as a day number. */
  function Day(t: int): int {
    t / (86_400 * SECOND)
  }

  function Used(b: Budget, key: string): int {
    if key in b.used then b.used[key] else 0
  }

  function SpendNext(b: Budget, c: Charge): (Budget, bool) {
    if c.limit <= 0 then (b, true)
    else
      var day := Some(Day(c.at));
      var b := if b.day == day then b else Budget(map[], day);
      var total := Wrap64(Used(b, c.key) + c.n);
      if total > c.limit then (b, false)
      else (b.(used := b.used[c.key := total]), true)
  }

  function After(charges: seq<Charge>): Budget {
    if charges == [] then Budget(map[], None)
    else SpendNext(After(charges[..|charges| - 1]), charges[|charges| - 1]).0
  }

  predicate Accepted(charges: seq<Charge>, j: nat)
    requires j < |charges|
  {
    SpendNext(After(charges[..j]), charges[j]).1
  }

  /** The bytes of the accepted charges of key on one day: what the cap is about. */
  function Spent(charges: seq<Charge>, key: string, day: int): int {
    if charges == [] then 0
    else
      var n := |charges| - 1;
      var c := charges[n];
      Spent(charges[..n], key, day) + if c.key == key && Day(c.at) == day && Accepted(charges, n) then c.n else 0
  }

  /** A run in which key is always charged at most most bytes under the same cap, by a clock that
      never goes back. Other keys are charged anything, under any limit. */
  ghost predicate CapRun(charges: seq<Charge>, key: string, cap: int, most: int) {
    && (forall i | 0 <= i < |charges| && charges[i].key == key :: charges[i].limit == cap && 0 <= charges[i].n <= most)
    && (forall i, j | 0 <= i < j < |charges| :: charges[i].at <= charges[j].at)
  }

  /** The counter is the day's total, and no later day has one. */
  ghost predicate Tracks(charges: seq<Charge>, key: string, cap: int) {
    var b := After(charges);
    && (forall d :: 0 <= Spent(charges, key, d) <= cap)
    && (b.day.None? ==> forall d :: Spent(charges, key, d) == 0)
    && (b.day.Some? ==>
          && charges != [] && b.day.value <= Day(charges[|charges| - 1].at)
          && Used(b, key) == Spent(charges, key, b.day.value)
          && forall d | d > b.day.value :: Spent(charges, key, d) == 0)
  }

  lemma DayGrows(s: int, t: int)
    requires s <= t
    ensures Day(s) <= Day(t)
  {
  }

  lemma {:induction false} RunTracks(charges: seq<Charge>, key: string, cap: int, most: int)
    requires CapRun(charges, key, cap, most) && 0 < cap && cap + most <= MAX_INT64
    ensures Tracks(charges, key, cap)
  {
    if charges != [] {
      var n := |charges| - 1;
      var before, c := charges[..n], charges[n];
      RunTracks(before, key, cap, most);
      var b := After(before);
      if b.day.Some? {
        DayGrows(before[n - 1].at, c.at);
      }
      assert forall d | d != Day(c.at) :: Spent(charges, key, d) == Spent(before, key, d);
    }
  }

  /** A UTC day has 86400 seconds, and days follow each other from the epoch on. */
  lemma DayExactly(t: int, d: int)
    ensures Day(t) == d <==> d * 86_400 * SECOND <= t < (d + 1) * 86_400 * SECOND
  {
  }

  // ----- Exactly what is accepted -----

  /** The recorded answers, one per charge. */
  ghost predicate AnswersOf(charges: seq<Charge>, answers: seq<bool>) {
    |answers| == |charges| && forall i | 0 <= i < |charges| :: answers[i] == Accepted(charges, i)
  }

  /** The bytes that the first m charges put on key's account for one day: those accepted under a limit. */
  function DayBytes(charges: seq<Charge>, answers: seq<bool>, m: nat, key: string, day: int): int
    requires m <= |charges| == |answers|
  {
    if m == 0 then 0
    else
      var c := charges[m - 1];
      DayBytes(charges, answers, m - 1, key, day) + if answers[m - 1] && c.limit > 0 && c.key == key && Day(c.at) == day then c.n else 0
  }

  /** The clock never goes back, sizes are not negative, and no account is carried past 2^63 - 1. */
  ghost predicate Sound(charges: seq<Charge>, answers: seq<bool>) {
    && |answers| == |charges| && (forall i, j | 0 <= i < j < |charges| :: charges[i].at <= charges[j].at)
    && (forall i | 0 <= i < |charges| ::
          0 <= charges[i].n && DayBytes(charges, answers, i, charges[i].key, Day(charges[i].at)) + charges[i].n <= MAX_INT64)
  }

  /** The counters are the accounts of the day they belong to, and later days are empty. */
  ghost predicate Booked(b: Budget, charges: seq<Charge>, answers: seq<bool>, m: nat)
    requires m <= |charges| == |answers|
  {
    && (b.day.None? ==> forall key, d :: DayBytes(charges, answers, m, key, d) == 0)
    && (b.day.Some? ==>
          && m > 0 && b.day.value <= Day(charges[m - 1].at)
          && (forall key :: Used(b, key) == DayBytes(charges, answers, m, key, b.day.value))
          && (forall key, d | d > b.day.value :: DayBytes(charges, answers, m, key, d) == 0))
    && (forall key, d :: 0 <= DayBytes(charges, answers, m, key, d))
  }

  /** The budget rolled over to the day of the clock. */
  function Today(b: Budget, at: int): Budget {
    if b.day == Some(Day(at)) then b else Budget(map[], Some(Day(at)))
  }

  /** The books of the day of charge m, before it. */
  ghost predicate Opened(b: Budget, charges: seq<Charge>, answers: seq<bool>, m: nat)
    requires m < |charges| == |answers|
  {
    var d := Day(charges[m].at);
    && b.day == Some(d) && (forall key :: Used(b, key) == DayBytes(charges, answers, m, key, d))
    && (forall key, e | e > d :: DayBytes(charges, answers, m, key, e) == 0)
  }

  lemma OpenBooks(b: Budget, charges: seq<Charge>, answers: seq<bool>, m: nat)
    requires m < |charges| == |answers| && Booked(b, charges, answers, m) && (m > 0 ==> charges[m - 1].at <= charges[m].at)
    ensures Opened(Today(b, charges[m].at), charges, answers, m)
  {
    if m > 0 {
      DayGrows(charges[m - 1].at, charges[m].at);
    }
  }

  /** Only the account of charge m moves, and only if it is accepted under a limit. */
  lemma OneMoreByte(charges: seq<Charge>, answers: seq<bool>, m: nat, next: nat, key: string, d: int)
    requires m < |charges| == |answers| && next == m + 1
    ensures var c := charges[m];
            DayBytes(charges, answers, next, key, d) ==
            DayBytes(charges, answers, m, key, d) + if answers[m] && c.limit > 0 && key == c.key && d == Day(c.at) then c.n else 0
  {
  }

  lemma StillBooked(b: Budget, charges: seq<Charge>, answers: seq<bool>, m: nat, next: nat)
    requires m < |charges| == |answers| && next == m + 1 && Booked(b, charges, answers, m) && (m > 0 ==> charges[m - 1].at <= charges[m].at)
    requires charges[m].limit <= 0
    ensures Booked(b, charges, answers, next)
  {
    forall key, d ensures DayBytes(charges, answers, next, key, d) == DayBytes(charges, answers, m, key, d) {
      OneMoreByte(charges, answers, m, next, key, d);
    }
    if m > 0 {
      DayGrows(charges[m - 1].at, charges[m].at);
    }
  }

  lemma LimitedAnswer(b: Budget, charges: seq<Charge>, answers: seq<bool>, m: nat)
    requires m < |charges| == |answers| && Opened(b, charges, answers, m) && charges[m].limit > 0 && charges[m].n >= 0
    requires 0 <= DayBytes(charges, answers, m, charges[m].key, Day(charges[m].at)) <= MAX_INT64 - charges[m].n
    ensures var c := charges[m]; var total := DayBytes(charges, answers, m, c.key, Day(c.at)) + c.n;
            SpendNext(b, c) == if total <= c.limit then (b.(used := b.used[c.key := total]), true) else (b, false)
  {
    assert Used(b, charges[m].key) == DayBytes(charges, answers, m, charges[m].key, Day(charges[m].at));
  }

  lemma BookLimited(b: Budget, charges: seq<Charge>, answers: seq<bool>, m: nat, next: nat)
    requires m < |charges| == |answers| && next == m + 1 && Opened(b, charges, answers, m) && charges[m].limit > 0 && charges[m].n >= 0
    requires forall key, d :: 0 <= DayBytes(charges, answers, m, key, d)
    requires DayBytes(charges, answers, m, charges[m].key, Day(charges[m].at)) <= MAX_INT64 - charges[m].n
    requires answers[m] == SpendNext(b, charges[m]).1
    ensures answers[m] <==> DayBytes(charges, answers, m, charges[m].key, Day(charges[m].at)) + charges[m].n <= charges[m].limit
    ensures Booked(SpendNext(b, charges[m]).0, charges, answers, next)
  {
    var c := charges[m];
    var d := Day(c.at);
    LimitedAnswer(b, charges, answers, m);
    var b' := SpendNext(b, c).0;
    forall key, e
      ensures DayBytes(charges, answers, next, key, e) ==
              DayBytes(charges, answers, m, key, e) + if answers[m] && key == c.key && e == d then c.n else 0
    {
      OneMoreByte(charges, answers, m, next, key, e);
    }
    forall key ensures Used(b', key) == DayBytes(charges, answers, next, key, d) {
      assert Used(b, key) == DayBytes(charges, answers, m, key, d);
    }
  }

  /** What one charge does to the books. */
  lemma BookOne(b: Budget, charges: seq<Charge>, answers: seq<bool>, m: nat)
    requires m < |charges| == |answers| && Booked(b, charges, answers, m) && (m > 0 ==> charges[m - 1].at <= charges[m].at)
    requires 0 <= charges[m].n <= MAX_INT64 - DayBytes(charges, answers, m, charges[m].key, Day(charges[m].at))
    requires answers[m] == SpendNext(b, charges[m]).1
    ensures var c := charges[m];
            answers[m] <==> c.limit <= 0 || DayBytes(charges, answers, m, c.key, Day(c.at)) + c.n <= c.limit
    ensures charges[m].limit <= 0 ==> SpendNext(b, charges[m]).0 == b
    ensures Booked(SpendNext(b, charges[m]).0, charges, answers, m + 1)
  {
    if charges[m].limit <= 0 {
      StillBooked(b, charges, answers, m, m + 1);
    } else {
      OpenBooks(b, charges, answers, m);
      BookLimited(Today(b, charges[m].at), charges, answers, m, m + 1);
    }
  }

  lemma {:induction false} BookAll(charges: seq<Charge>, answers: seq<bool>, m: nat)
    requires m <= |charges| && AnswersOf(charges, answers) && Sound(charges, answers)
    ensures Booked(After(charges[..m]), charges, answers, m)
  {
    if m > 0 {
      BookAll(charges, answers, m - 1);
      assert charges[..m][..m - 1] == charges[..m - 1];
      assert answers[m - 1] == Accepted(charges, m - 1);
      BookOne(After(charges[..m - 1]), charges, answers, m - 1);
    } else {
      assert charges[..0] == [];
    }
  }

  /** Spend, exactly: a charge without a limit is accepted and changes no counter; one with a limit is
      accepted if and only if the bytes accepted under a limit for that key on that UTC day, and its
      own, are at most the limit. */
  lemma SpendExactly(charges: seq<Charge>, answers: seq<bool>, j: nat)
    requires j < |charges| && AnswersOf(charges, answers) && Sound(charges, answers)
    ensures var c := charges[j];
            && (answers[j] <==> c.limit <= 0 || DayBytes(charges, answers, j, c.key, Day(c.at)) + c.n <= c.limit)
            && (c.limit <= 0 ==> After(charges[..j + 1]) == After(charges[..j]))
  {
    BookAll(charges, answers, j);
    BookOne(After(charges[..j]), charges, answers, j);
    assert charges[..j + 1][..j] == charges[..j];
  }

  /** A full day's worth of one-byte charges: the counter climbs to k, one by one. */
  function Unit(key: string, cap: int, k: nat): seq<Charge> {
    seq(k, i => Charge(key, 1, cap, 0))
  }

  lemma {:induction false} UnitRun(key: string, cap: int, k: nat)
    requires 0 <= k <= cap <= MAX_INT64
    ensures Spent(Unit(key, cap, k), key, Day(0)) == k
    ensures Used(After(Unit(key, cap, k)), key) == k
    ensures k > 0 ==> After(Unit(key, cap, k)).day == Some(Day(0))
  {
    if k > 0 {
      UnitRun(key, cap, k - 1);
      assert Unit(key, cap, k)[..k - 1] == Unit(key, cap, k - 1);
    }
  }

  lemma UnitCapRun(key: string, cap: int, most: int, k: nat)
    requires 0 < most
    ensures CapRun(Unit(key, cap, k) + [Charge(key, most, cap, 0)], key, cap, most)
  {
  }

  /** Once the cap is spent, a charge that carries the counter past 2^63 - 1 is accepted. */
  lemma WrapSlipsThrough(key: string, cap: int, most: int)
    requires 0 < cap <= MAX_INT64 && 0 < most <= MAX_INT64 && cap + most > MAX_INT64
    ensures var run := Unit(key, cap, cap) + [Charge(key, most, cap, 0)];
            CapRun(run, key, cap, most) && Spent(run, key, Day(0)) == cap + most
  {
    UnitCapRun(key, cap, most, cap);
    UnitRun(key, cap, cap);
    LastSlips(Unit(key, cap, cap), key, cap, most);
  }

  lemma LastSlips(before: seq<Charge>, key: string, cap: int, most: int)
    requires 0 < cap <= MAX_INT64 && 0 < most <= MAX_INT64 && cap + most > MAX_INT64
    requires Spent(before, key, Day(0)) == cap && Used(After(before), key) == cap && After(before).day == Some(Day(0))
    ensures Spent(before + [Charge(key, most, cap, 0)], key, Day(0)) == cap + most
  {
    var c := Charge(key, most, cap, 0);
    var run := before + [c];
    assert run[..|before|] == before && run[|before|] == c;
    assert Wrap64(cap + most) == cap + most - TWO_64;
  }

  /** The accepted bytes of one key and day stay within its cap in every run, exactly when the cap
      leaves room for one more charge below 2^63. */
  lemma DailyCapExactly(cap: int, most: int)
    requires 0 < cap <= MAX_INT64 && 0 < most <= MAX_INT64
    ensures (forall charges, key, day | CapRun(charges, key, cap, most) :: Spent(charges, key, day) <= cap)
            <==> cap + most <= MAX_INT64
  {
    if cap + most <= MAX_INT64 {
      forall charges, key, day | CapRun(charges, key, cap, most) ensures Spent(charges, key, day) <= cap {
        RunTracks(charges, key, cap, most);
      }
    } else {
      WrapSlipsThrough("k", cap, most);
      var run := Unit("k", cap, cap) + [Charge("k", most, cap, 0)];
      assert CapRun(run, "k", cap, most) && Spent(run, "k", Day(0)) > cap;
    }
  }

  class ByteBudget {
    var used: map<string, int>
    var day: Option<int>
    ghost var charges: seq<Charge>

    ghost predicate Valid()
      reads this
    {
      Budget(used, day) == After(charges)
    }

    constructor ()
      ensures Valid() && charges == []
    {
      used, day, charges := map[], None, [];
    }

    /** Records n bytes for key and reports whether the day's total stays within limit. */
    method Spend(key: string, n: int, limit: int, now: int) returns (ok: bool)
      requires Valid()
      modifies this
      ensures Valid() && charges == old(charges) + [Charge(key, n, limit, now)]
      ensures ok == Accepted(charges, |charges| - 1)
      ensures limit <= 0 ==> ok && used == old(used) && day == old(day)
      ensures limit > 0 ==>
                var before := if old(day) == Some(Day(now)) && key in old(used) then old(used)[key] else 0;
                day == Some(Day(now)) && (ok <==> Wrap64(before + n) <= limit) && (ok ==> key in used && used[key] == Wrap64(before + n))
    {
      charges := charges + [Charge(key, n, limit, now)];
      assert charges[..|charges| - 1] == old(charges);
      if limit <= 0 {
        return true;
      }
      var today := Some(Day(now));
      if today != day {
        day := today;
        used := map[];
      }
      var total := Wrap64((if key in used then used[key] else 0) + n);
      if total > limit {
        return false;
      }
      used := used[key := total];
      return true;
    }
  }
}
