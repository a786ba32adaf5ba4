/** Exactly when the stream keeps its promises about one lease: for every discipline of starting
    requests, the promise holds in all its runs if and only if it never lets requests conflict. */
module BrokerDiscipline {
  import opened Broker
  import opened BrokerWords
  import opened BrokerConflicts
  import opened BrokerSurrender

  /** A discipline decides which requests start and when. It can hold a request back, but not stop
      one that has started: handlers in flight go on in any order. */
  ghost predicate Discipline(c: Config, s: State, admits: seq<Step> -> bool) {
    && (forall steps, n | admits(steps) && 0 <= n <= |steps| :: admits(steps[..n]))
    && (forall steps, step | admits(steps) && GoesOn(c, s, steps, step) :: admits(steps + [step]))
  }

  ghost predicate GoesOn(c: Config, s: State, steps: seq<Step>, step: Step) {
    step.Take? && IsRun(c, s, steps + [step])
  }

  ghost predicate Admitted(c: Config, s: State, admits: seq<Step> -> bool, steps: seq<Step>) {
    admits(steps) && IsRun(c, s, steps)
  }

  // ----- Prefixes and continuations -----

  lemma {:induction false} PrefixRuns(c: Config, s: State, steps: seq<Step>, n: nat)
    requires IsRun(c, s, steps) && n <= |steps|
    ensures IsRun(c, s, steps[..n])
    decreases n
  {
    if n > 0 {
      PrefixRuns(c, Next(c, s, steps[0]), steps[1..], n - 1);
      assert steps[..n][1..] == steps[1..][..n - 1];
    }
  }

  lemma {:induction false} ContinuationAdmitted(c: Config, s: State, admits: seq<Step> -> bool, steps: seq<Step>, more: seq<Step>, a: Rid, b: Rid)
    requires Discipline(c, s, admits) && admits(steps) && IsRun(c, s, steps + more) && TakesOf(more, a, b)
    ensures admits(steps + more)
  {
    if more == [] {
      assert steps + more == steps;
    } else {
      var n := |more| - 1;
      var before := steps + more[..n];
      assert (steps + more)[..|steps| + n] == before && before + [more[n]] == steps + more;
      PrefixRuns(c, s, steps + more, |steps| + n);
      ContinuationAdmitted(c, s, admits, steps, more[..n], a, b);
      assert GoesOn(c, s, before, more[n]);
    }
  }

  /** Where two requests of an admitted run can go by themselves, an admitted run goes. */
  lemma Follow(c: Config, s: State, admits: seq<Step> -> bool, steps: seq<Step>, s': State, a: Rid, b: Rid) returns (all: seq<Step>)
    requires Discipline(c, s, admits) && Admitted(c, s, admits, steps) && Continues(c, Run(c, s, steps), s', a, b)
    ensures Admitted(c, s, admits, all) && Run(c, s, all) == s'
  {
    var r := Run(c, s, steps);
    var more :| IsRun(c, r, more) && Run(c, r, more) == s' && TakesOf(more, a, b);
    Concat(c, s, steps, more);
    ContinuationAdmitted(c, s, admits, steps, more, a, b);
    all := steps + more;
  }

  lemma StepsAfter(c: Config, s: State, steps: seq<Step>, n: nat)
    requires steps != [] && n <= |steps| - 1
    ensures Run(c, s, steps[..n + 1]) == Run(c, Next(c, s, steps[0]), steps[1..][..n])
  {
    assert steps[..n + 1][1..] == steps[1..][..n];
  }

  lemma {:induction false} NeverClashIfNone(c: Config, s: State, steps: seq<Step>, id: string)
    requires forall n | 0 <= n <= |steps| :: !Clash(Run(c, s, steps[..n]), id)
    ensures NeverClash(c, s, steps, id)
    decreases |steps|
  {
    assert Run(c, s, steps[..0]) == s;
    if steps != [] {
      var s', rest := Next(c, s, steps[0]), steps[1..];
      forall n | 0 <= n <= |rest| ensures !Clash(Run(c, s', rest[..n]), id) {
        StepsAfter(c, s, steps, n);
        assert !Clash(Run(c, s, steps[..n + 1]), id);
      }
      NeverClashIfNone(c, s', rest, id);
    }
  }

  lemma {:induction false} NeverDuelIfNone(c: Config, s: State, steps: seq<Step>, id: string)
    requires forall n | 0 <= n <= |steps| :: !Duel(Run(c, s, steps[..n]), id)
    ensures NeverDuel(c, s, steps, id)
    decreases |steps|
  {
    assert Run(c, s, steps[..0]) == s;
    if steps != [] {
      var s', rest := Next(c, s, steps[0]), steps[1..];
      forall n | 0 <= n <= |rest| ensures !Duel(Run(c, s', rest[..n]), id) {
        StepsAfter(c, s, steps, n);
        assert !Duel(Run(c, s, steps[..n + 1]), id);
      }
      NeverDuelIfNone(c, s', rest, id);
    }
  }

  // ----- The exact conditions -----

  ghost predicate KeepsOrder(c: Config, s: State, admits: seq<Step> -> bool, id: string) {
    forall steps | Admitted(c, s, admits, steps) :: IsLifecycle(Word(Run(c, s, steps).w.stream, id))
  }

  ghost predicate KeepsApart(c: Config, s: State, admits: seq<Step> -> bool, id: string) {
    forall steps | Admitted(c, s, admits, steps) :: !Clash(Run(c, s, steps), id)
  }

  ghost predicate SurrendersOnce(c: Config, s: State, admits: seq<Step> -> bool, id: string) {
    forall steps | Admitted(c, s, admits, steps) :: Times(Run(c, s, steps).w, id) <= 1
  }

  ghost predicate OneDeleteAtATime(c: Config, s: State, admits: seq<Step> -> bool, id: string) {
    forall steps | Admitted(c, s, admits, steps) :: !Duel(Run(c, s, steps), id)
  }

  lemma ApartKeepsOrder(c: Config, s: State, admits: seq<Step> -> bool, id: string, steps: seq<Step>)
    requires Init(c, s) && Discipline(c, s, admits) && KeepsApart(c, s, admits, id) && Admitted(c, s, admits, steps)
    ensures IsLifecycle(Word(Run(c, s, steps).w.stream, id))
  {
    forall n | 0 <= n <= |steps| ensures !Clash(Run(c, s, steps[..n]), id) {
      PrefixRuns(c, s, steps, n);
      assert Admitted(c, s, admits, steps[..n]);
    }
    NeverClashIfNone(c, s, steps, id);
    EventsTellALife(c, s, steps, id);
  }

  lemma OrderKeepsApart(c: Config, s: State, admits: seq<Step> -> bool, id: string, steps: seq<Step>)
    requires Init(c, s) && Discipline(c, s, admits) && KeepsOrder(c, s, admits, id) && Admitted(c, s, admits, steps)
    ensures !Clash(Run(c, s, steps), id)
  {
    var r := Run(c, s, steps);
    if a, b :| a != b && a in r.inflight && b in r.inflight && Conflict(r.inflight[a], r.inflight[b], id) {
      var s' := ConflictBreaks(c, s, steps, a, b, id);
      var all := Follow(c, s, admits, steps, s', a, b);
    }
  }

  /** Under a discipline of starting requests, the events of a lease are always a life of it if and
      only if no two requests ever conflict on it. */
  lemma OrderIffApart(c: Config, s: State, admits: seq<Step> -> bool, id: string)
    requires Init(c, s) && Discipline(c, s, admits)
    ensures KeepsOrder(c, s, admits, id) <==> KeepsApart(c, s, admits, id)
  {
    if KeepsApart(c, s, admits, id) {
      forall steps | Admitted(c, s, admits, steps) ensures IsLifecycle(Word(Run(c, s, steps).w.stream, id)) {
        ApartKeepsOrder(c, s, admits, id, steps);
      }
    }
    if KeepsOrder(c, s, admits, id) {
      forall steps | Admitted(c, s, admits, steps) ensures !Clash(Run(c, s, steps), id) {
        OrderKeepsApart(c, s, admits, id, steps);
      }
    }
  }

  lemma ApartSurrendersOnce(c: Config, s: State, admits: seq<Step> -> bool, id: string, steps: seq<Step>)
    requires Init(c, s) && Discipline(c, s, admits) && OneDeleteAtATime(c, s, admits, id) && Admitted(c, s, admits, steps)
    ensures Times(Run(c, s, steps).w, id) <= 1
  {
    forall n | 0 <= n <= |steps| ensures !Duel(Run(c, s, steps[..n]), id) {
      PrefixRuns(c, s, steps, n);
      assert Admitted(c, s, admits, steps[..n]);
    }
    NeverDuelIfNone(c, s, steps, id);
    AtMostOneSurrender(c, s, steps, id);
  }

  lemma OnceKeepsDeletesApart(c: Config, s: State, admits: seq<Step> -> bool, id: string, steps: seq<Step>)
    requires Init(c, s) && Discipline(c, s, admits) && SurrendersOnce(c, s, admits, id) && Admitted(c, s, admits, steps)
    ensures !Duel(Run(c, s, steps), id)
  {
    var r := Run(c, s, steps);
    if a, b :| a != b && a in r.inflight && b in r.inflight && Surrendering(r.inflight[a], id) && Surrendering(r.inflight[b], id) {
      var s' := TwoDeletesBreak(c, s, steps, a, b, id);
      var all := Follow(c, s, admits, steps, s', a, b);
    }
  }

  /** Under a discipline of starting requests, a lease is never surrendered twice if and only if no
      two DELETEs of it are ever between Get and mark together. */
  lemma OnceIffOneDelete(c: Config, s: State, admits: seq<Step> -> bool, id: string)
    requires Init(c, s) && Discipline(c, s, admits)
    ensures SurrendersOnce(c, s, admits, id) <==> OneDeleteAtATime(c, s, admits, id)
  {
    if OneDeleteAtATime(c, s, admits, id) {
      forall steps | Admitted(c, s, admits, steps) ensures Times(Run(c, s, steps).w, id) <= 1 {
        ApartSurrendersOnce(c, s, admits, id, steps);
      }
    }
    if SurrendersOnce(c, s, admits, id) {
      forall steps | Admitted(c, s, admits, steps) ensures !Duel(Run(c, s, steps), id) {
        OnceKeepsDeletesApart(c, s, admits, id, steps);
      }
    }
  }
}
