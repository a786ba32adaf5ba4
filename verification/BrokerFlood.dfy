/** How many signed events one subject can cause: the limiters composed with the handlers. */
module BrokerFlood {
  import opened Base
  import opened Policy
  import opened Broker
  import opened RateLimit

  // ----- Limiters answer by the rule -----

  function CallsOf(log: seq<Entry>): seq<Call> {
    seq(|log|, i requires 0 <= i < |log| => log[i].call)
  }

  /** Every recorded answer is the token bucket's. */
  ghost predicate Ruled(p: Params, log: seq<Entry>) {
    forall i | 0 <= i < |log| :: log[i].ok == Verdict(p, CallsOf(log), i)
  }

  ghost predicate AllRuled(c: Config, l: Logs) {
    && Ruled(PerMinute(c.leaseRate, c.leaseBurst), l.lease) && Ruled(PerMinute(c.claimRate, c.claimBurst), l.claim)
    && Ruled(PerMinute(1.0, 1), l.throttle) && Ruled(PerMinute(1.0, 1), l.auth)
  }

  /** A run in which the limiters answer as server.go wires them. */
  ghost predicate IsGoverned(c: Config, s: State, steps: seq<Step>)
    decreases |steps|
  {
    steps == [] || (
      && Possible(c, s, steps[0]) && AllRuled(c, Next(c, s, steps[0]).logs)
      && IsGoverned(c, Next(c, s, steps[0]), steps[1..]))
  }

  // ----- What a request may still emit -----

  /** The events of the stream that request rid wrote. */
  function Caused(stream: seq<Event>, rid: Rid): nat {
    if stream == [] then 0
    else Caused(stream[..|stream| - 1], rid) + if stream[|stream| - 1].rid == rid then 1 else 0
  }

  lemma CausedAfter(stream: seq<Event>, events: seq<Event>, rid: Rid, writer: Rid)
    requires |events| <= 1 && forall i | 0 <= i < |events| :: events[i].rid == writer
    ensures Caused(stream + events, rid) == Caused(stream, rid) + if rid == writer then |events| else 0
  {
    if events == [] {
      assert stream + events == stream;
    } else {
      assert (stream + events)[..|stream|] == stream;
    }
  }

  /** No limiter has said yes to it yet. */
  predicate Unadmitted(q: Req) {
    || q.CreateBegun? || q.CreateAdmit? || q.RenewAdmit? || q.SurrenderAdmit? || q.ClaimsAdmit?
    || q.Throttled? || q.AuthAsk?
  }

  /** The most events a request can still write. */
  function Left(c: Config, q: Req): nat {
    if Unadmitted(q) || q.CreateUndo? || q.CreateReply? || q.RenewKill? || q.SurrenderMark? then 0
    else if q.ClaimsCheck? then c.maxClaims
    else if q.ClaimsEmit? then q.n
    else 1
  }

  function LeftAfter(c: Config, next: Option<Req>): nat {
    if next.Some? then Left(c, next.value) else 0
  }

  function QuotaOf(c: Config, a: Asked): nat {
    if a.ClaimLimiter? then c.maxClaims else 1
  }

  /** The limiter key a request acts under, if it may still emit. */
  function KeyOf(q: Req): string {
    if q.AuthAsk? || q.AuthEmit? then q.source
    else if q.CreateUndo? || q.RenewKill? || q.SurrenderMark? || IsSweep(q) then ""
    else Key(q.sub)
  }

  function EventKey(e: Event): string {
    if e.AuthFailed? then e.source else Key(e.sub)
  }

  /** The four limiters. */
  datatype Gate = LeaseGate | ClaimGate | ThrottleGate | AuthGate

  /** The limiter that has let an admitted request in. */
  function GateOf(q: Req): Gate {
    if q.ClaimsCheck? || q.ClaimsEmit? then ClaimGate
    else if q.ThrottleEmit? then ThrottleGate
    else if q.AuthEmit? then AuthGate
    else LeaseGate
  }

  /** The limiter whose yes an event needs. */
  function EventGate(e: Event): Gate {
    if e.ClaimRecorded? then ClaimGate
    else if e.Denied? && e.aggregated then ThrottleGate
    else if e.AuthFailed? then AuthGate
    else LeaseGate
  }

  function AskedGate(a: Asked): Gate {
    if a.ClaimLimiter? then ClaimGate else if a.ThrottleLimiter? then ThrottleGate else if a.AuthLimiter? then AuthGate else LeaseGate
  }

  // ----- One step spends what it may -----

  /** An effect of an admitted request writes at most what it gives up. */
  ghost predicate Pays(c: Config, q: Req, e: Effect) {
    && e.asked == Nobody && |e.events| + LeftAfter(c, e.next) <= Left(c, q)
    && (e.next.Some? ==> !Unadmitted(e.next.value) && !IsSweep(e.next.value))
  }

  /** What it writes, now and later, is under its own key and from the limiter that let it in. */
  ghost predicate Signs(c: Config, rid: Rid, q: Req, e: Effect) {
    && |e.events| <= 1
    && (e.events != [] ==>
          var v := e.events[0];
          v.rid == rid && EventKey(v) == KeyOf(q) && EventGate(v) == GateOf(q) && !v.Expired?)
    && (e.next.Some? && Left(c, e.next.value) > 0 ==> KeyOf(e.next.value) == KeyOf(q) && GateOf(e.next.value) == GateOf(q))
  }

  ghost predicate Spends(c: Config, rid: Rid, q: Req, e: Effect) {
    Pays(c, q, e) && Signs(c, rid, q, e)
  }

  /** An effect of an unadmitted one writes nothing; a yes grants it the limiter's quota. */
  ghost predicate Asks(c: Config, q: Req, e: Effect, ok: bool) {
    && e.events == []
    && (e.next.Some? ==> KeyOf(e.next.value) == KeyOf(q) && !IsSweep(e.next.value))
    && if e.asked == Nobody then e.next.Some? && Unadmitted(e.next.value)
       else
         && e.asked.key == KeyOf(q)
         && LeftAfter(c, e.next) <= (if ok then QuotaOf(c, e.asked) else 0)
         && (e.next.Some? ==> (ok <==> !Unadmitted(e.next.value)) && (ok ==> GateOf(e.next.value) == AskedGate(e.asked)))
  }

  lemma CreatePays(c: Config, w: World, rid: Rid, q: Req, x: Input)
    requires IsCreate(q) && !Unadmitted(q)
    ensures Pays(c, q, CreateStep(c, w, rid, q, x))
  {
  }

  lemma CreateSigns(c: Config, w: World, rid: Rid, q: Req, x: Input)
    requires IsCreate(q) && !Unadmitted(q)
    ensures Signs(c, rid, q, CreateStep(c, w, rid, q, x))
  {
  }

  lemma RenewPays(c: Config, w: World, rid: Rid, q: Req, x: Input)
    requires IsRenew(q) && !Unadmitted(q)
    ensures Pays(c, q, RenewStep(w, rid, q, x))
  {
  }

  lemma RenewSigns(c: Config, w: World, rid: Rid, q: Req, x: Input)
    requires IsRenew(q) && !Unadmitted(q)
    ensures Signs(c, rid, q, RenewStep(w, rid, q, x))
  {
  }

  lemma SurrenderPays(c: Config, w: World, rid: Rid, q: Req, x: Input)
    requires IsSurrender(q) && !Unadmitted(q)
    ensures Pays(c, q, SurrenderStep(w, rid, q, x))
  {
  }

  lemma SurrenderSigns(c: Config, w: World, rid: Rid, q: Req, x: Input)
    requires IsSurrender(q) && !Unadmitted(q)
    ensures Signs(c, rid, q, SurrenderStep(w, rid, q, x))
  {
  }

  lemma FrontPays(c: Config, w: World, rid: Rid, q: Req, x: Input)
    requires IsFront(q) && !Unadmitted(q)
    ensures Pays(c, q, FrontStep(c, w, rid, q, x))
  {
  }

  lemma FrontSigns(c: Config, w: World, rid: Rid, q: Req, x: Input)
    requires IsFront(q) && !Unadmitted(q)
    ensures Signs(c, rid, q, FrontStep(c, w, rid, q, x))
  {
  }

  lemma CreateAsks(c: Config, w: World, rid: Rid, q: Req, x: Input)
    requires IsCreate(q) && Unadmitted(q)
    ensures Asks(c, q, CreateStep(c, w, rid, q, x), x.ok)
  {
  }

  lemma RenewAsks(c: Config, w: World, rid: Rid, q: Req, x: Input)
    requires IsRenew(q) && Unadmitted(q)
    ensures Asks(c, q, RenewStep(w, rid, q, x), x.ok)
  {
  }

  lemma SurrenderAsks(c: Config, w: World, rid: Rid, q: Req, x: Input)
    requires IsSurrender(q) && Unadmitted(q)
    ensures Asks(c, q, SurrenderStep(w, rid, q, x), x.ok)
  {
  }

  lemma FrontAsks(c: Config, w: World, rid: Rid, q: Req, x: Input)
    requires IsFront(q) && Unadmitted(q)
    ensures Asks(c, q, FrontStep(c, w, rid, q, x), x.ok)
  {
  }

  lemma UnadmittedAsks(c: Config, w: World, rid: Rid, q: Req, x: Input)
    requires Unadmitted(q)
    ensures Asks(c, q, EffectOf(c, w, rid, q, x), x.ok)
  {
    if IsCreate(q) {
      CreateAsks(c, w, rid, q, x);
    } else if IsRenew(q) {
      RenewAsks(c, w, rid, q, x);
    } else if IsSurrender(q) {
      SurrenderAsks(c, w, rid, q, x);
    } else {
      FrontAsks(c, w, rid, q, x);
    }
  }

  lemma AdmittedSpends(c: Config, w: World, rid: Rid, q: Req, x: Input)
    requires !Unadmitted(q) && !IsSweep(q)
    ensures Spends(c, rid, q, EffectOf(c, w, rid, q, x))
  {
    if IsCreate(q) {
      CreatePays(c, w, rid, q, x);
      CreateSigns(c, w, rid, q, x);
    } else if IsRenew(q) {
      RenewPays(c, w, rid, q, x);
      RenewSigns(c, w, rid, q, x);
    } else if IsSurrender(q) {
      SurrenderPays(c, w, rid, q, x);
      SurrenderSigns(c, w, rid, q, x);
    } else {
      FrontPays(c, w, rid, q, x);
      FrontSigns(c, w, rid, q, x);
    }
  }

  lemma SweepAsksNobody(c: Config, w: World, rid: Rid, q: Req, x: Input)
    requires IsSweep(q)
    ensures var e := EffectOf(c, w, rid, q, x);
            && e.asked == Nobody && |e.events| <= 1 && (forall i | 0 <= i < |e.events| :: e.events[i].rid == rid && e.events[i].Expired?)
            && (e.next.Some? ==> IsSweep(e.next.value))
  {
  }

  // ----- The invariant -----

  function Budget(c: Config, s: State, rid: Rid): nat {
    Caused(s.w.stream, rid) + if rid in s.inflight then Left(c, s.inflight[rid]) else 0
  }

  ghost predicate Quiet(log: seq<Entry>, rid: Rid) {
    forall i | 0 <= i < |log| :: log[i].rid == rid ==> !log[i].ok
  }

  /** Every yes of this limiter covers what its request wrote and may still write. */
  ghost predicate Covered(c: Config, s: State, log: seq<Entry>, quota: nat) {
    forall i | 0 <= i < |log| && log[i].ok :: Budget(c, s, log[i].rid) <= quota
  }

  ghost predicate Known(s: State, log: seq<Entry>) {
    forall i | 0 <= i < |log| :: log[i].rid in s.begun
  }

  /** Requests that no limiter admitted have written nothing, and sweeps are nobody's request. */
  ghost predicate Waiting(s: State, log: seq<Entry>) {
    forall rid | rid in s.inflight && (Unadmitted(s.inflight[rid]) || IsSweep(s.inflight[rid])) :: Quiet(log, rid)
  }

  ghost predicate LogInv(c: Config, s: State, log: seq<Entry>, quota: nat) {
    Covered(c, s, log, quota) && Known(s, log) && Waiting(s, log)
  }

  ghost predicate FloodInv(c: Config, s: State) {
    && LogInv(c, s, s.logs.lease, 1) && LogInv(c, s, s.logs.claim, c.maxClaims)
    && LogInv(c, s, s.logs.throttle, 1) && LogInv(c, s, s.logs.auth, 1)
    && s.inflight.Keys <= s.begun
    && (forall n | 0 <= n < |s.w.stream| :: s.w.stream[n].rid in s.begun)
    && (forall rid | rid in s.inflight && Unadmitted(s.inflight[rid]) :: Caused(s.w.stream, rid) == 0)
  }

  lemma {:induction false} UnknownCausesNothing(stream: seq<Event>, rid: Rid)
    requires forall n | 0 <= n < |stream| :: stream[n].rid != rid
    ensures Caused(stream, rid) == 0
  {
    if stream != [] {
      UnknownCausesNothing(stream[..|stream| - 1], rid);
    }
  }

  /** How a step of request rid changes each request's budget. */
  ghost predicate BudgetStep(c: Config, s: State, s': State, rid: Rid, grant: nat) {
    && (forall r | r != rid :: Budget(c, s', r) == Budget(c, s, r))
    && Budget(c, s', rid) <= Budget(c, s, rid) + grant
    && s'.begun == s.begun && s'.inflight.Keys <= s.inflight.Keys
    && (forall r | r in s'.inflight && r != rid :: s'.inflight[r] == s.inflight[r])
  }

  /** A log that the step does not extend keeps its invariant, if the step grants nothing or the
      request had no yes in it. */
  lemma UntouchedLog(c: Config, s: State, s': State, rid: Rid, grant: nat, log: seq<Entry>, quota: nat)
    requires LogInv(c, s, log, quota) && BudgetStep(c, s, s', rid, grant) && (grant == 0 || Quiet(log, rid))
    requires rid in s'.inflight && (Unadmitted(s'.inflight[rid]) || IsSweep(s'.inflight[rid])) ==> Quiet(log, rid)
    ensures LogInv(c, s', log, quota)
  {
  }

  lemma ExtendedLog(c: Config, s: State, s': State, rid: Rid, grant: nat, log: seq<Entry>, quota: nat, e: Entry)
    requires LogInv(c, s, log, quota) && BudgetStep(c, s, s', rid, grant) && Quiet(log, rid)
    requires e.rid == rid && rid in s.begun && Budget(c, s, rid) == 0 && (e.ok ==> grant <= quota)
    requires rid in s'.inflight && (Unadmitted(s'.inflight[rid]) || IsSweep(s'.inflight[rid])) ==> !e.ok
    ensures LogInv(c, s', log + [e], quota)
  {
    var log' := log + [e];
    forall r | r in s'.inflight && (Unadmitted(s'.inflight[r]) || IsSweep(s'.inflight[r])) ensures Quiet(log', r) {
      if r != rid {
        assert Quiet(log, r);
      }
    }
  }

  /** What rid wrote and may still write after a step that wrote events and goes on as next says. */
  lemma BudgetsAfter(c: Config, s: State, s': State, rid: Rid, events: seq<Event>, next: Option<Req>, grant: nat)
    requires rid in s.inflight && s'.begun == s.begun && s'.inflight == Moved(s.inflight, rid, next)
    requires s'.w.stream == s.w.stream + events && |events| <= 1 && forall i | 0 <= i < |events| :: events[i].rid == rid
    requires |events| + LeftAfter(c, next) <= Left(c, s.inflight[rid]) + grant
    ensures BudgetStep(c, s, s', rid, grant)
  {
    forall r ensures Caused(s'.w.stream, r) == Caused(s.w.stream, r) + if r == rid then |events| else 0 {
      CausedAfter(s.w.stream, events, r, rid);
    }
  }

  lemma SpendStep(c: Config, s: State, rid: Rid, x: Input)
    requires FloodInv(c, s) && rid in s.inflight && !Unadmitted(s.inflight[rid]) && !IsSweep(s.inflight[rid])
    ensures FloodInv(c, Next(c, s, Take(rid, x)))
  {
    var q := s.inflight[rid];
    var e := EffectOf(c, s.w, rid, q, x);
    var s' := Next(c, s, Take(rid, x));
    AdmittedSpends(c, s.w, rid, q, x);
    BudgetsAfter(c, s, s', rid, e.events, e.next, 0);
    QuietStep(c, s, s', rid, e.events, 0);
  }

  /** A sweep's budget belongs to nobody, so it may grow. */
  lemma SweepFlood(c: Config, s: State, s': State, rid: Rid, e: Effect)
    requires FloodInv(c, s) && rid in s.inflight && IsSweep(s.inflight[rid])
    requires |e.events| <= 1 && (forall i | 0 <= i < |e.events| :: e.events[i].rid == rid) && (e.next.Some? ==> IsSweep(e.next.value))
    requires s'.inflight == Moved(s.inflight, rid, e.next) && s'.begun == s.begun && s'.logs == s.logs && s'.w.stream == s.w.stream + e.events
    ensures FloodInv(c, s')
  {
    BudgetsAfter(c, s, s', rid, e.events, e.next, 1);
    QuietStep(c, s, s', rid, e.events, 1);
  }

  lemma SweepStepFlood(c: Config, s: State, rid: Rid, x: Input)
    requires FloodInv(c, s) && rid in s.inflight && IsSweep(s.inflight[rid])
    ensures FloodInv(c, Next(c, s, Take(rid, x)))
  {
    var e := EffectOf(c, s.w, rid, s.inflight[rid], x);
    SweepAsksNobody(c, s.w, rid, s.inflight[rid], x);
    SweepFlood(c, s, Next(c, s, Take(rid, x)), rid, e);
  }

  lemma QuietStep(c: Config, s: State, s': State, rid: Rid, events: seq<Event>, grant: nat)
    requires FloodInv(c, s) && rid in s.inflight && !Unadmitted(s.inflight[rid]) && BudgetStep(c, s, s', rid, grant)
    requires s'.logs == s.logs && s'.w.stream == s.w.stream + events && forall i | 0 <= i < |events| :: events[i].rid == rid
    requires grant == 0 || IsSweep(s.inflight[rid])
    requires rid in s'.inflight ==> !Unadmitted(s'.inflight[rid]) && (IsSweep(s'.inflight[rid]) ==> IsSweep(s.inflight[rid]))
    requires |events| <= 1
    ensures FloodInv(c, s')
  {
    UntouchedLog(c, s, s', rid, grant, s.logs.lease, 1);
    UntouchedLog(c, s, s', rid, grant, s.logs.claim, c.maxClaims);
    UntouchedLog(c, s, s', rid, grant, s.logs.throttle, 1);
    UntouchedLog(c, s, s', rid, grant, s.logs.auth, 1);
    forall r | r in s'.inflight && Unadmitted(s'.inflight[r]) ensures Caused(s'.w.stream, r) == 0 {
      CausedAfter(s.w.stream, events, r, rid);
    }
  }

  lemma AskStep(c: Config, s: State, rid: Rid, x: Input)
    requires FloodInv(c, s) && rid in s.inflight && Unadmitted(s.inflight[rid])
    ensures FloodInv(c, Next(c, s, Take(rid, x)))
  {
    var q := s.inflight[rid];
    var e := EffectOf(c, s.w, rid, q, x);
    var s' := Next(c, s, Take(rid, x));
    UnadmittedAsks(c, s.w, rid, q, x);
    assert s'.w.stream == s.w.stream + [] == s.w.stream;
    var grant := LeftAfter(c, e.next);
    assert BudgetStep(c, s, s', rid, grant);
    AskLogs(c, s, s', rid, grant, e.asked, x);
  }

  lemma AskLogs(c: Config, s: State, s': State, rid: Rid, grant: nat, a: Asked, x: Input)
    requires FloodInv(c, s) && rid in s.inflight && Unadmitted(s.inflight[rid]) && BudgetStep(c, s, s', rid, grant)
    requires s'.logs == Logged(s.logs, rid, a, x.t, x.ok) && s'.w.stream == s.w.stream
    requires a == Nobody ==> grant == 0
    requires a != Nobody ==> grant <= (if x.ok then QuotaOf(c, a) else 0)
    requires rid in s'.inflight ==> !IsSweep(s'.inflight[rid]) && (a == Nobody || (x.ok <==> !Unadmitted(s'.inflight[rid])))
    ensures FloodInv(c, s')
  {
    if a.LeaseLimiter? {
      ExtendedLog(c, s, s', rid, grant, s.logs.lease, 1, Entry(rid, Call(a.key, x.t), x.ok));
    } else {
      UntouchedLog(c, s, s', rid, grant, s.logs.lease, 1);
    }
    if a.ClaimLimiter? {
      ExtendedLog(c, s, s', rid, grant, s.logs.claim, c.maxClaims, Entry(rid, Call(a.key, x.t), x.ok));
    } else {
      UntouchedLog(c, s, s', rid, grant, s.logs.claim, c.maxClaims);
    }
    if a.ThrottleLimiter? {
      ExtendedLog(c, s, s', rid, grant, s.logs.throttle, 1, Entry(rid, Call(a.key, x.t), x.ok));
    } else {
      UntouchedLog(c, s, s', rid, grant, s.logs.throttle, 1);
    }
    if a.AuthLimiter? {
      ExtendedLog(c, s, s', rid, grant, s.logs.auth, 1, Entry(rid, Call(a.key, x.t), x.ok));
    } else {
      UntouchedLog(c, s, s', rid, grant, s.logs.auth, 1);
    }
  }

  lemma BeginStepFlood(c: Config, s: State, step: Step)
    requires FloodInv(c, s) && !step.Take? && !step.Reload? && Possible(c, s, step)
    ensures FloodInv(c, Next(c, s, step))
  {
    var s', rid := Next(c, s, step), step.rid;
    UnknownCausesNothing(s.w.stream, rid);
    assert forall r | r != rid :: Budget(c, s', r) == Budget(c, s, r);
  }

  lemma NextKeepsFlood(c: Config, s: State, step: Step)
    requires FloodInv(c, s) && Possible(c, s, step)
    ensures FloodInv(c, Next(c, s, step))
  {
    match step
    case Reload(p) =>
      assert forall r :: Budget(c, Next(c, s, step), r) == Budget(c, s, r);
    case Take(rid, x) =>
      var q := s.inflight[rid];
      if Unadmitted(q) {
        AskStep(c, s, rid, x);
      } else if IsSweep(q) {
        SweepStepFlood(c, s, rid, x);
      } else {
        SpendStep(c, s, rid, x);
      }
    case _ => BeginStepFlood(c, s, step);
  }

  lemma {:induction false} RunKeepsFlood(c: Config, s: State, steps: seq<Step>)
    requires FloodInv(c, s) && AllRuled(c, s.logs) && IsGoverned(c, s, steps)
    ensures FloodInv(c, Run(c, s, steps)) && AllRuled(c, Run(c, s, steps).logs)
    decreases |steps|
  {
    if steps != [] {
      NextKeepsFlood(c, s, steps[0]);
      RunKeepsFlood(c, Next(c, s, steps[0]), steps[1..]);
    }
  }

  // ----- The bound -----

  /** The events written by the requests that a limiter said yes to, for key, within [from, until]. */
  function Admitted(stream: seq<Event>, log: seq<Entry>, key: string, from: int, until: int, n: nat): nat
    requires n <= |log|
  {
    if n == 0 then 0
    else
      var e := log[n - 1];
      Admitted(stream, log, key, from, until, n - 1)
      + if e.ok && e.call.key == key && from <= e.call.at <= until then Caused(stream, e.rid) else 0
  }

  /** How many calls of key within [from, until] were answered with yes. */
  function Yeses(log: seq<Entry>, key: string, from: int, until: int, n: nat): nat
    requires n <= |log|
  {
    if n == 0 then 0
    else
      var e := log[n - 1];
      Yeses(log, key, from, until, n - 1) + if e.ok && e.call.key == key && from <= e.call.at <= until then 1 else 0
  }

  lemma {:induction false} AdmittedWithinQuota(c: Config, s: State, log: seq<Entry>, quota: nat, key: string, from: int, until: int, n: nat)
    requires n <= |log| && Covered(c, s, log, quota)
    ensures Admitted(s.w.stream, log, key, from, until, n) <= Times(quota, Yeses(log, key, from, until, n))
  {
    if n > 0 {
      AdmittedWithinQuota(c, s, log, quota, key, from, until, n - 1);
      OneMoreTime(quota, Yeses(log, key, from, until, n - 1));
      assert log[n - 1].ok ==> Caused(s.w.stream, log[n - 1].rid) <= Budget(c, s, log[n - 1].rid);
    }
  }

  lemma {:induction false} YesesAreAllowed(p: Params, log: seq<Entry>, key: string, from: int, until: int, n: nat)
    requires n <= |log| && Ruled(p, log)
    ensures Yeses(log, key, from, until, n) == AllowedWithin(p, CallsOf(log), key, from, until, n)
  {
    if n > 0 {
      YesesAreAllowed(p, log, key, from, until, n - 1);
      assert CallsOf(log)[n - 1] == log[n - 1].call && log[n - 1].ok == Verdict(p, CallsOf(log), n - 1);
    }
  }

  /** n, m times over. */
  function Times(m: nat, n: nat): nat {
    if m == 0 then 0 else Times(m - 1, n) + n
  }

  lemma {:induction false} OneMoreTime(m: nat, n: nat)
    ensures Times(m, n + 1) == Times(m, n) + m
  {
    if m > 0 {
      OneMoreTime(m - 1, n);
    }
  }

  /** The events that subject key's own create, renew, surrender, claims and throttled calls of
      [from, until] caused, each counted under the call that let it through. */
  function SubjectEvents(s: State, key: string, from: int, until: int): nat {
    Admitted(s.w.stream, s.logs.lease, key, from, until, |s.logs.lease|)
    + Admitted(s.w.stream, s.logs.claim, key, from, until, |s.logs.claim|)
    + Admitted(s.w.stream, s.logs.throttle, key, from, until, |s.logs.throttle|)
  }

  /** y, m times over. */
  function Scaled(m: nat, y: real): real {
    if m == 0 then 0.0 else Scaled(m - 1, y) + y
  }

  lemma {:induction false} ScaledIsProduct(m: nat, y: real)
    ensures Scaled(m, y) == m as real * y
  {
    if m > 0 {
      ScaledIsProduct(m - 1, y);
    }
  }

  lemma {:induction false} ScaledBounds(m: nat, n: nat, y: real)
    requires n as real <= y
    ensures Times(m, n) as real <= Scaled(m, y)
  {
    if m > 0 {
      ScaledBounds(m - 1, n, y);
    }
  }

  /** burst + rate * d */
  function Tokens(rate: real, burst: int, d: int): real {
    burst as real + Refill(rate, d)
  }

  /** What one limiter lets a key cause in d nanoseconds: quota times burst + rate * d. */
  function Share(quota: nat, rate: real, burst: int, d: int): real {
    Scaled(quota, Tokens(rate, burst, d))
  }

  lemma LogBound(c: Config, s: State, log: seq<Entry>, quota: nat, p: Params, bound: real, key: string, from: int, until: int)
    requires Ruled(p, log) && Covered(c, s, log, quota)
    requires AllowedWithin(p, CallsOf(log), key, from, until, |log|) as real <= bound
    ensures Admitted(s.w.stream, log, key, from, until, |log|) as real <= Scaled(quota, bound)
  {
    AdmittedWithinQuota(c, s, log, quota, key, from, until, |log|);
    YesesAreAllowed(p, log, key, from, until, |log|);
    ScaledBounds(quota, Yeses(log, key, from, until, |log|), bound);
  }

  /** The calls on one key that a limiter allows in a stretch of time. */
  lemma CallsBound(log: seq<Entry>, rate: real, burst: int, key: string, from: int, until: int)
    requires from <= until && rate >= 0.0 && burst >= 0
    ensures AllowedWithin(PerMinute(rate, burst), CallsOf(log), key, from, until, |log|) as real <= Tokens(rate, burst, until - from)
  {
    WindowBoundRefill(rate, burst, CallsOf(log), key, from, until);
  }

  lemma ShareBound(c: Config, s: State, log: seq<Entry>, quota: nat, rate: real, burst: int, key: string, from: int, until: int)
    requires Ruled(PerMinute(rate, burst), log) && Covered(c, s, log, quota) && from <= until && rate >= 0.0 && burst >= 0
    ensures Admitted(s.w.stream, log, key, from, until, |log|) as real <= Share(quota, rate, burst, until - from)
  {
    CallsBound(log, rate, burst, key, from, until);
    LogBound(c, s, log, quota, PerMinute(rate, burst), Tokens(rate, burst, until - from), key, from, until);
  }

  lemma RunCovers(c: Config, s: State, steps: seq<Step>)
    requires Init(c, s) && IsGoverned(c, s, steps)
    ensures var s' := Run(c, s, steps);
            && Covered(c, s', s'.logs.lease, 1) && Ruled(PerMinute(c.leaseRate, c.leaseBurst), s'.logs.lease)
            && Covered(c, s', s'.logs.claim, c.maxClaims) && Ruled(PerMinute(c.claimRate, c.claimBurst), s'.logs.claim)
            && Covered(c, s', s'.logs.throttle, 1) && Ruled(PerMinute(1.0, 1), s'.logs.throttle)
            && Covered(c, s', s'.logs.auth, 1) && Ruled(PerMinute(1.0, 1), s'.logs.auth)
  {
    InitFlood(c, s);
    RunKeepsFlood(c, s, steps);
  }

  /** Flood bound: in any stretch of time the events one subject causes number at most
      (lease burst + lease rate * T) + batch limit * (claim burst + claim rate * T) + (1 + T),
      with T the stretch in minutes and the rates per minute. */
  lemma FloodBound(c: Config, s: State, steps: seq<Step>, key: string, from: int, until: int)
    requires Init(c, s) && IsGoverned(c, s, steps) && from <= until
    requires c.leaseRate >= 0.0 && c.leaseBurst >= 0 && c.claimRate >= 0.0 && c.claimBurst >= 0
    ensures SubjectEvents(Run(c, s, steps), key, from, until) as real
            <= Share(1, c.leaseRate, c.leaseBurst, until - from)
               + Share(c.maxClaims, c.claimRate, c.claimBurst, until - from)
               + Share(1, 1.0, 1, until - from)
  {
    var s' := Run(c, s, steps);
    RunCovers(c, s, steps);
    ShareBound(c, s', s'.logs.lease, 1, c.leaseRate, c.leaseBurst, key, from, until);
    ShareBound(c, s', s'.logs.claim, c.maxClaims, c.claimRate, c.claimBurst, key, from, until);
    ShareBound(c, s', s'.logs.throttle, 1, 1.0, 1, key, from, until);
  }

  /** What the three shares come to, over d nanoseconds. */
  lemma SharesAre(c: Config, d: int)
    ensures Share(1, c.leaseRate, c.leaseBurst, d) == c.leaseBurst as real + c.leaseRate * Minutes(d)
    ensures Share(c.maxClaims, c.claimRate, c.claimBurst, d) == c.maxClaims as real * (c.claimBurst as real + c.claimRate * Minutes(d))
    ensures Share(1, 1.0, 1, d) == 1.0 + Minutes(d)
  {
    TokensAre(c.leaseRate, c.leaseBurst, d);
    TokensAre(c.claimRate, c.claimBurst, d);
    TokensAre(1.0, 1, d);
    ScaledIsProduct(1, Tokens(c.leaseRate, c.leaseBurst, d));
    ScaledIsProduct(c.maxClaims, Tokens(c.claimRate, c.claimBurst, d));
    ScaledIsProduct(1, Tokens(1.0, 1, d));
  }

  lemma TokensAre(rate: real, burst: int, d: int)
    ensures Tokens(rate, burst, d) == burst as real + rate * Minutes(d)
  {
    RefillExactly(rate, d);
  }

  lemma InitFlood(c: Config, s: State)
    requires Init(c, s)
    ensures FloodInv(c, s) && AllRuled(c, s.logs)
  {
  }

  lemma SparseLog(log: seq<Entry>, i: nat, j: nat)
    requires Ruled(PerMinute(1.0, 1), log)
    ensures i < j < |log| && log[i].ok && log[j].ok && log[i].call.key == log[j].call.key ==> log[j].call.at - log[i].call.at >= 60 * SECOND
  {
    if i < j < |log| && log[i].ok && log[j].ok && log[i].call.key == log[j].call.key {
      OncePerMinute(CallsOf(log), i, j);
    }
  }
}
