/** lease.expired tells the truth: it is written only after the expiry it states, which never moves again. */
module BrokerExpiry {
  import opened Base
  import opened Broker
  import opened BrokerFacts

  /** The lease has been reported expired, is past its expiry, and that expiry is at. */
  ghost predicate Over(w: World, id: string, at: int) {
    id in w.records && w.records[id].expiredEmit && w.records[id].expiresAt == at && w.clock > at
  }

  ghost predicate FlagOk(w: World, id: string) {
    id in w.records && w.records[id].expiredEmit ==> w.clock > w.records[id].expiresAt
  }

  ghost predicate ReqOver(w: World, q: Req) {
    q.SweepEmit? ==> forall i | 0 <= i < |q.left| :: Over(w, q.left[i].id, q.left[i].expiresAt)
  }

  /** The event states the whole seconds of the expiry of a lease that is over. */
  ghost predicate EventOver(w: World, e: Event) {
    e.Expired? ==>
      e.id in w.records && Over(w, e.id, w.records[e.id].expiresAt)
      && e.expires * SECOND <= w.records[e.id].expiresAt < (e.expires + 1) * SECOND
  }

  ghost predicate ExpiryInv(s: State) {
    && (forall id :: FlagOk(s.w, id))
    && (forall rid | rid in s.inflight :: ReqOver(s.w, s.inflight[rid]))
    && (forall n | 0 <= n < |s.w.stream| :: EventOver(s.w, s.w.stream[n]))
  }

  // ----- What is over stays over -----

  ghost predicate OversStay(w: World, w': World) {
    && w.clock <= w'.clock && (forall id, at | Over(w, id, at) :: Over(w', id, at)) && (forall id | FlagOk(w, id) :: FlagOk(w', id))
  }

  /** A put is of a fresh lease or of one that was not over. */
  ghost predicate PutsFresh(w: World, e: Effect) {
    e.change.Puts? ==> !e.change.lease.expiredEmit && (e.change.lease.id in w.records ==> !w.records[e.change.lease.id].expiredEmit)
  }

  lemma OverAfter(w: World, clock: int, e: Effect, id: string, at: int)
    requires w.present <= w.records.Keys && w.clock <= clock && PutsFresh(w, e) && Over(w, id, at)
    ensures Over(Apply(w, clock, e), id, at)
  {
    if e.change.Marks? && id in w.present {
      assert Table(w)[id] == w.records[id];
    }
  }

  lemma FlagAfter(w: World, clock: int, e: Effect, id: string)
    requires w.present <= w.records.Keys && w.clock <= clock && PutsFresh(w, e) && FlagOk(w, id)
    requires e.change.Sweeps? ==> e.change.now <= clock
    ensures FlagOk(Apply(w, clock, e), id)
  {
    if e.change.Marks? && id in w.present && id in w.records {
      assert Table(w)[id] == w.records[id];
    }
  }

  lemma ApplyKeepsOvers(w: World, clock: int, e: Effect)
    requires w.present <= w.records.Keys && w.clock <= clock && PutsFresh(w, e) && (e.change.Sweeps? ==> e.change.now <= clock)
    ensures OversStay(w, Apply(w, clock, e))
  {
    forall id, at | Over(w, id, at) ensures Over(Apply(w, clock, e), id, at) {
      OverAfter(w, clock, e, id, at);
    }
    forall id | FlagOk(w, id) ensures FlagOk(Apply(w, clock, e), id) {
      FlagAfter(w, clock, e, id);
    }
  }

  // ----- One step -----

  /** What a step puts, sweeps, says and goes on with. */
  ghost predicate StepOver(w: World, w': World, e: Effect, clock: int) {
    && PutsFresh(w, e) && (e.change.Sweeps? ==> e.change.now <= clock) && (e.next.Some? ==> ReqOver(w', e.next.value))
    && |e.events| <= 1 && (e.events != [] ==> EventOver(w', e.events[0]))
  }

  lemma CreateOver(c: Config, w: World, rid: Rid, q: Req, x: Input)
    requires IsCreate(q) && InputOk(w, q, x)
    ensures var e := CreateStep(c, w, rid, q, x); StepOver(w, Apply(w, x.t2, e), e, x.t2)
  {
  }

  lemma RenewOver(w: World, rid: Rid, q: Req, x: Input)
    requires IsRenew(q) && InputOk(w, q, x) && (forall id | id in w.records :: w.records[id].id == id) && forall id :: FlagOk(w, id)
    ensures var e := RenewStep(w, rid, q, x); StepOver(w, Apply(w, x.t2, e), e, x.t2)
  {
    if q.RenewStore? && q.copy.id in Table(w) {
      assert Table(w)[q.copy.id] == w.records[q.copy.id] && FlagOk(w, q.copy.id);
    }
  }

  lemma OtherOver(c: Config, w: World, rid: Rid, q: Req, x: Input)
    requires IsSurrender(q) || IsFront(q)
    ensures var e := EffectOf(c, w, rid, q, x); StepOver(w, Apply(w, x.t2, e), e, x.t2)
  {
  }

  lemma SweepTableOver(w: World, rid: Rid, q: Req, x: Input)
    requires (q.SweepTable? || q.SweepBegun?) && InputOk(w, q, x) && w.present <= w.records.Keys
    ensures var e := SweepStep(w, rid, q, x); StepOver(w, Apply(w, x.t2, e), e, x.t2)
  {
    if q.SweepTable? {
      var w' := Apply(w, x.t2, SweepStep(w, rid, q, x));
      forall i | 0 <= i < |x.out| ensures Over(w', x.out[i].id, x.out[i].expiresAt) {
        assert x.out[i].id in Table(w) && Table(w)[x.out[i].id] == w.records[x.out[i].id];
      }
    }
  }

  lemma SweepEmitOver(w: World, rid: Rid, q: Req, x: Input)
    requires q.SweepEmit? && InputOk(w, q, x) && ReqOver(w, q)
    ensures var e := SweepStep(w, rid, q, x); StepOver(w, Apply(w, x.t2, e), e, x.t2)
  {
    if q.left != [] {
      assert Over(w, q.left[0].id, q.left[0].expiresAt);
      SecondsBelow(q.left[0].expiresAt);
    }
  }

  lemma EachStepOver(c: Config, w: World, rid: Rid, q: Req, x: Input)
    requires InputOk(w, q, x) && ReqOver(w, q) && w.present <= w.records.Keys
    requires (forall id | id in w.records :: w.records[id].id == id) && forall id :: FlagOk(w, id)
    ensures var e := EffectOf(c, w, rid, q, x); StepOver(w, Apply(w, x.t2, e), e, x.t2)
  {
    if IsCreate(q) {
      CreateOver(c, w, rid, q, x);
    } else if IsRenew(q) {
      RenewOver(w, rid, q, x);
    } else if q.SweepEmit? {
      SweepEmitOver(w, rid, q, x);
    } else if IsSweep(q) {
      SweepTableOver(w, rid, q, x);
    } else {
      OtherOver(c, w, rid, q, x);
    }
  }

  // ----- Runs -----

  lemma ExpiryAfter(s: State, s': State, rid: Rid, clock: int, e: Effect)
    requires ExpiryInv(s) && rid in s.inflight && OversStay(s.w, s'.w) && StepOver(s.w, s'.w, e, clock)
    requires s'.w.stream == s.w.stream + e.events && s'.inflight == Moved(s.inflight, rid, e.next)
    ensures ExpiryInv(s')
  {
    forall id ensures FlagOk(s'.w, id) {
      assert FlagOk(s.w, id);
    }
    forall r | r in s'.inflight ensures ReqOver(s'.w, s'.inflight[r]) {
      if r != rid {
        assert ReqOver(s.w, s.inflight[r]);
      }
    }
    forall n | 0 <= n < |s'.w.stream| ensures EventOver(s'.w, s'.w.stream[n]) {
      if n < |s.w.stream| {
        assert EventOver(s.w, s.w.stream[n]);
      }
    }
  }

  lemma TakeKeepsExpiry(c: Config, s: State, rid: Rid, x: Input)
    requires ExpiryInv(s) && Possible(c, s, Take(rid, x)) && s.w.present <= s.w.records.Keys
    requires forall id | id in s.w.records :: s.w.records[id].id == id
    ensures ExpiryInv(Next(c, s, Take(rid, x)))
  {
    var e := EffectOf(c, s.w, rid, s.inflight[rid], x);
    EachStepOver(c, s.w, rid, s.inflight[rid], x);
    ApplyKeepsOvers(s.w, x.t2, e);
    ExpiryAfter(s, Next(c, s, Take(rid, x)), rid, x.t2, e);
  }

  lemma OtherKeepsExpiry(c: Config, s: State, step: Step)
    requires ExpiryInv(s) && Possible(c, s, step) && !step.Take?
    ensures ExpiryInv(Next(c, s, step))
  {
    var s' := Next(c, s, step);
    assert forall id :: FlagOk(s.w, id) ==> FlagOk(s'.w, id);
    forall r | r in s'.inflight ensures ReqOver(s'.w, s'.inflight[r]) {
      if r in s.inflight && s'.inflight[r] == s.inflight[r] {
        assert ReqOver(s.w, s.inflight[r]);
      }
    }
    forall n | 0 <= n < |s'.w.stream| ensures EventOver(s'.w, s'.w.stream[n]) {
      assert EventOver(s.w, s.w.stream[n]);
    }
  }

  lemma {:induction false} RunKeepsExpiry(c: Config, s: State, steps: seq<Step>)
    requires Facts(c, s) && ExpiryInv(s) && IsRun(c, s, steps)
    ensures ExpiryInv(Run(c, s, steps))
    decreases |steps|
  {
    if steps != [] {
      NextKeepsFacts(c, s, steps[0]);
      if steps[0].Take? {
        assert forall k | k in s.w.records :: RecordOk(s.w, k);
        TakeKeepsExpiry(c, s, steps[0].rid, steps[0].x);
      } else {
        OtherKeepsExpiry(c, s, steps[0]);
      }
      RunKeepsExpiry(c, Next(c, s, steps[0]), steps[1..]);
    }
  }

  /** In every run, each lease.expired event is about a lease that is past its expiry for good, and
      states that expiry to the second. */
  lemma ExpiredMeansExpired(c: Config, s: State, steps: seq<Step>, n: nat)
    requires Init(c, s) && IsRun(c, s, steps) && n < |Run(c, s, steps).w.stream|
    ensures EventOver(Run(c, s, steps).w, Run(c, s, steps).w.stream[n])
  {
    InitFacts(c, s);
    RunKeepsExpiry(c, s, steps);
  }
}
