/** One lease.surrendered per lease, in every interleaving in which no two DELETEs of it are between
    their Get and their mark at the same time. */
module BrokerSurrender {
  import opened Base
  import opened Broker
  import opened BrokerFacts
  import opened BrokerAudit
  import opened BrokerWords
  import opened BrokerConflicts

  ghost predicate Duel(s: State, id: string) {
    exists a, b :: a != b && a in s.inflight && b in s.inflight && Surrendering(s.inflight[a], id) && Surrendering(s.inflight[b], id)
  }

  ghost predicate NeverDuel(c: Config, s: State, steps: seq<Step>, id: string)
    decreases |steps|
  {
    !Duel(s, id) && (steps == [] || NeverDuel(c, Next(c, s, steps[0]), steps[1..], id))
  }

  /** How many lease.surrendered events the stream holds for the lease. */
  function Times(w: World, id: string): nat {
    CountS(Word(w.stream, id))
  }

  // ----- What such a run keeps -----

  /** Once surrendered, the lease is gone, marked, or about to be marked. */
  ghost predicate TableOnce(w: World, marking: bool, id: string) {
    && Times(w, id) <= 1 && (id !in w.records ==> Times(w, id) == 0)
    && (Times(w, id) == 1 && Live(w, id) ==> marking)
  }

  /** A DELETE that has not spoken is the first. */
  ghost predicate ReqOnce(w: World, q: Req, id: string) {
    Surrendering(q, id) && !Marking(q, id) ==> Times(w, id) == 0
  }

  ghost predicate OnceInv(s: State, id: string) {
    TableOnce(s.w, SomeMarking(s, id), id) && forall rid | rid in s.inflight :: ReqOnce(s.w, s.inflight[rid], id)
  }

  /** What a step says and where it goes, as far as surrenders of this lease go. */
  ghost predicate Speaks(w: World, q: Req, e: Effect, id: string) {
    && |e.events| <= 1
    && ((e.events != [] && e.events[0].Surrendered? && e.events[0].id == id) <==> ThenMarking(e.next, id))
    && (ThenMarking(e.next, id) ==> Surrendering(q, id)) && (Marking(q, id) ==> e.next.None?)
    && (e.next.Some? && Surrendering(e.next.value, id) && !Surrendering(q, id) ==> Live(w, id))
  }

  lemma CreateMute(c: Config, w: World, rid: Rid, q: Req, x: Input, id: string)
    requires IsCreate(q)
    ensures Speaks(w, q, CreateStep(c, w, rid, q, x), id)
  {
  }

  lemma RenewMute(w: World, rid: Rid, q: Req, x: Input, id: string)
    requires IsRenew(q)
    ensures Speaks(w, q, RenewStep(w, rid, q, x), id)
  {
  }

  lemma SurrenderVoice(w: World, rid: Rid, q: Req, x: Input, id: string)
    requires IsSurrender(q) && Keyed(w)
    ensures Speaks(w, q, SurrenderStep(w, rid, q, x), id)
  {
  }

  lemma SweepMute(w: World, rid: Rid, q: Req, x: Input, id: string)
    requires IsSweep(q)
    ensures Speaks(w, q, SweepStep(w, rid, q, x), id)
  {
  }

  lemma FrontMute(c: Config, w: World, rid: Rid, q: Req, x: Input, id: string)
    requires IsFront(q)
    ensures Speaks(w, q, FrontStep(c, w, rid, q, x), id)
  {
  }

  lemma StepSpeaks(c: Config, w: World, rid: Rid, q: Req, x: Input, id: string)
    requires Keyed(w)
    ensures Speaks(w, q, EffectOf(c, w, rid, q, x), id)
  {
    if IsCreate(q) {
      CreateMute(c, w, rid, q, x, id);
    } else if IsRenew(q) {
      RenewMute(w, rid, q, x, id);
    } else if IsSurrender(q) {
      SurrenderVoice(w, rid, q, x, id);
    } else if IsSweep(q) {
      SweepMute(w, rid, q, x, id);
    } else {
      FrontMute(c, w, rid, q, x, id);
    }
  }

  /** Only a put of a fresh or a live lease leaves a lease live that was not, and a mark leaves none. */
  ghost predicate PutsAlive(w: World, q: Req, e: Effect, id: string) {
    && (e.change.Puts? && e.change.lease.id == id ==> id !in w.records || Live(w, id))
    && (Marking(q, id) ==> e.change == Marks(id))
  }

  lemma CreatePuts(c: Config, w: World, rid: Rid, q: Req, x: Input, id: string)
    requires IsCreate(q) && InputOk(w, q, x)
    ensures PutsAlive(w, q, CreateStep(c, w, rid, q, x), id)
  {
  }

  lemma RenewPuts(w: World, rid: Rid, q: Req, x: Input, id: string)
    requires IsRenew(q) && Keyed(w)
    ensures PutsAlive(w, q, RenewStep(w, rid, q, x), id)
  {
    if q.RenewStore? && q.copy.id in Table(w) {
      assert Table(w)[q.copy.id] == w.records[q.copy.id];
    }
  }

  lemma StepPuts(c: Config, w: World, rid: Rid, q: Req, x: Input, id: string)
    requires Keyed(w) && InputOk(w, q, x)
    ensures PutsAlive(w, q, EffectOf(c, w, rid, q, x), id)
  {
    if IsCreate(q) {
      CreatePuts(c, w, rid, q, x, id);
    } else if IsRenew(q) {
      RenewPuts(w, rid, q, x, id);
    } else {
      OthersPutNothing(c, w, rid, q, x, id);
    }
  }

  lemma OthersPutNothing(c: Config, w: World, rid: Rid, q: Req, x: Input, id: string)
    requires !IsCreate(q) && !IsRenew(q)
    ensures PutsAlive(w, q, EffectOf(c, w, rid, q, x), id)
  {
  }

  lemma Adds(stream: seq<Event>, events: seq<Event>, id: string)
    requires |events| <= 1
    ensures CountS(Word(stream + events, id)) ==
            CountS(Word(stream, id)) + if events != [] && events[0].Surrendered? && events[0].id == id then 1 else 0
  {
    if events == [] {
      assert stream + events == stream;
    } else {
      CountStep(stream + events, id);
      assert (stream + events)[..|stream|] == stream;
    }
  }

  /** What a step does to the count and to the table, as far as this lease goes. */
  ghost predicate Bears(w: World, w': World, q: Req, next: Option<Req>, id: string) {
    && Times(w', id) == Times(w, id) + (if ThenMarking(next, id) then 1 else 0)
    && (ThenMarking(next, id) ==> Surrendering(q, id)) && (Marking(q, id) ==> next.None?)
    && (next.Some? && Surrendering(next.value, id) && !Surrendering(q, id) ==> Live(w, id))
    && (Live(w', id) && id in w.records ==> Live(w, id) && !Marking(q, id)) && (id in w.records ==> id in w'.records)
  }

  lemma EffectBears(w: World, clock: int, q: Req, e: Effect, id: string)
    requires Keyed(w) && Speaks(w, q, e, id) && PutsAlive(w, q, e, id)
    ensures Bears(w, Apply(w, clock, e), q, e.next, id)
  {
    Adds(w.stream, e.events, id);
    LivesAfter(w, clock, q, e, id);
  }

  lemma LivesAfter(w: World, clock: int, q: Req, e: Effect, id: string)
    requires Keyed(w) && PutsAlive(w, q, e, id)
    ensures var w' := Apply(w, clock, e);
            (Live(w', id) && id in w.records ==> Live(w, id) && !Marking(q, id)) && (id in w.records ==> id in w'.records)
  {
    KeysKept(w, e.change);
    if Live(Apply(w, clock, e), id) && !(e.change.Puts? && e.change.lease.id == id) {
      LiveKept(w, clock, e, id);
    }
    if Marking(q, id) && id in w.present {
      assert Table(w)[id] == w.records[id];
    }
  }

  // ----- Runs -----

  /** A DELETE that duels with nobody has no mark beside it. */
  lemma NoMarkBeside(s: State, rid: Rid, id: string)
    requires !Duel(s, id) && rid in s.inflight && Surrendering(s.inflight[rid], id)
    ensures !OtherMarking(s, rid, id) && forall r | r != rid && r in s.inflight :: !Surrendering(s.inflight[r], id)
  {
  }

  lemma OnceAfter(s: State, s': State, rid: Rid, next: Option<Req>, id: string)
    requires OnceInv(s, id) && rid in s.inflight && s'.inflight == Moved(s.inflight, rid, next)
    requires Bears(s.w, s'.w, s.inflight[rid], next, id) && !Duel(s, id) && !Duel(s', id)
    requires ThenMarking(next, id) ==> id in s.w.records
    ensures OnceInv(s', id)
  {
    OthersStay(s, s', rid, next, id);
    if Surrendering(s.inflight[rid], id) {
      NoMarkBeside(s, rid, id);
    }
    if next.Some? && Surrendering(next.value, id) {
      NoMarkBeside(s', rid, id);
    }
    forall r | r in s'.inflight ensures ReqOnce(s'.w, s'.inflight[r], id) {
      if r != rid {
        assert s'.inflight[r] == s.inflight[r] && ReqOnce(s.w, s.inflight[r], id);
      }
    }
  }

  lemma OtherKeepsOnce(c: Config, s: State, step: Step, id: string)
    requires OnceInv(s, id) && Possible(c, s, step) && !step.Take? && s.inflight.Keys <= s.begun
    ensures OnceInv(Next(c, s, step), id)
  {
    var s' := Next(c, s, step);
    assert forall r | r in s.inflight :: r in s'.inflight && s'.inflight[r] == s.inflight[r];
    assert forall r | r in s'.inflight && r !in s.inflight :: !Surrendering(s'.inflight[r], id);
  }

  lemma TakeKeepsOnce(c: Config, s: State, rid: Rid, x: Input, id: string)
    requires OnceInv(s, id) && Keyed(s.w) && Possible(c, s, Take(rid, x)) && !Duel(s, id) && !Duel(Next(c, s, Take(rid, x)), id)
    requires Surrendering(s.inflight[rid], id) && !Marking(s.inflight[rid], id) ==> id in s.w.records
    ensures OnceInv(Next(c, s, Take(rid, x)), id)
  {
    var q := s.inflight[rid];
    var e := EffectOf(c, s.w, rid, q, x);
    StepSpeaks(c, s.w, rid, q, x, id);
    StepPuts(c, s.w, rid, q, x, id);
    EffectBears(s.w, x.t2, q, e, id);
    OnceAfter(s, Next(c, s, Take(rid, x)), rid, e.next, id);
  }

  lemma SurrenderingKnown(c: Config, w: World, rid: Rid, q: Req, id: string)
    requires ReqOk(c, w, rid, q)
    ensures Surrendering(q, id) && !Marking(q, id) ==> id in w.records
  {
  }

  lemma NextKeepsOnce(c: Config, s: State, step: Step, id: string)
    requires OnceInv(s, id) && Core(c, s) && Possible(c, s, step) && !Duel(s, id) && !Duel(Next(c, s, step), id)
    ensures OnceInv(Next(c, s, step), id)
  {
    if step.Take? {
      KeyedWorld(c, s.w);
      SurrenderingKnown(c, s.w, step.rid, s.inflight[step.rid], id);
      TakeKeepsOnce(c, s, step.rid, step.x, id);
    } else {
      OtherKeepsOnce(c, s, step, id);
    }
  }

  lemma {:induction false} RunKeepsOnce(c: Config, s: State, steps: seq<Step>, id: string)
    requires Facts(c, s) && OnceInv(s, id) && IsRun(c, s, steps) && NeverDuel(c, s, steps, id)
    ensures OnceInv(Run(c, s, steps), id)
    decreases |steps|
  {
    if steps != [] {
      NextKeepsFacts(c, s, steps[0]);
      NextKeepsOnce(c, s, steps[0], id);
      RunKeepsOnce(c, Next(c, s, steps[0]), steps[1..], id);
    }
  }

  /** In every interleaving, with any audit writes failing, a lease is surrendered at most once if no
      two DELETEs of it are between Get and mark together. TwoDeletesBreak is the other half: wherever
      two are, they can write two events. */
  lemma AtMostOneSurrender(c: Config, s: State, steps: seq<Step>, id: string)
    requires Init(c, s) && IsRun(c, s, steps) && NeverDuel(c, s, steps, id)
    ensures var w := Run(c, s, steps).w;
            && Times(w, id) <= 1
            && forall m, n | 0 <= m < |w.stream| && 0 <= n < |w.stream|
                             && w.stream[m].Surrendered? && w.stream[n].Surrendered? && w.stream[m].id == id && w.stream[n].id == id :: m == n
  {
    InitFacts(c, s);
    assert OnceInv(s, id);
    RunKeepsOnce(c, s, steps, id);
    var w := Run(c, s, steps).w;
    forall m, n | 0 <= m < n < |w.stream| ensures !(w.stream[m].Surrendered? && w.stream[n].Surrendered? && w.stream[m].id == id && w.stream[n].id == id) {
      if w.stream[m].Surrendered? && w.stream[n].Surrendered? && w.stream[m].id == id && w.stream[n].id == id {
        SaidTwice(w.stream, m, n, id);
      }
    }
  }
}
