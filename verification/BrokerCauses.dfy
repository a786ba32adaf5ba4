/** Whose call each event is counted under: every event a request writes was let through by a
    limiter that said yes to that very request, under the key the event names. */
module BrokerCauses {
  import opened Base
  import opened Broker
  import opened BrokerFlood
  import RateLimit

  ghost predicate HasYes(log: seq<Entry>, rid: Rid, key: string) {
    exists i :: 0 <= i < |log| && log[i].rid == rid && log[i].ok && log[i].call.key == key
  }

  function LogOf(l: Logs, gate: Gate): seq<Entry> {
    match gate
    case LeaseGate => l.lease
    case ClaimGate => l.claim
    case ThrottleGate => l.throttle
    case AuthGate => l.auth
  }

  ghost predicate Backed(l: Logs, rid: Rid, key: string, gate: Gate) {
    HasYes(LogOf(l, gate), rid, key)
  }

  ghost predicate EventBacked(l: Logs, e: Event) {
    e.Expired? || Backed(l, e.rid, EventKey(e), EventGate(e))
  }

  ghost predicate StreamBacked(l: Logs, stream: seq<Event>) {
    forall n | 0 <= n < |stream| :: EventBacked(l, stream[n])
  }

  ghost predicate ReqBacked(c: Config, l: Logs, rid: Rid, q: Req) {
    Unadmitted(q) || IsSweep(q) || Left(c, q) == 0 || Backed(l, rid, KeyOf(q), GateOf(q))
  }

  ghost predicate ReqsBacked(c: Config, l: Logs, inflight: map<Rid, Req>) {
    forall rid | rid in inflight :: ReqBacked(c, l, rid, inflight[rid])
  }

  ghost predicate CauseInv(c: Config, s: State) {
    StreamBacked(s.logs, s.w.stream) && ReqsBacked(c, s.logs, s.inflight)
  }

  lemma HasYesGrows(log: seq<Entry>, e: Entry, rid: Rid, key: string)
    ensures HasYes(log, rid, key) ==> HasYes(log + [e], rid, key)
    ensures e.ok ==> HasYes(log + [e], e.rid, e.call.key)
  {
    assert (log + [e])[|log|] == e;
    if HasYes(log, rid, key) {
      var i :| 0 <= i < |log| && log[i].rid == rid && log[i].ok && log[i].call.key == key;
      assert (log + [e])[i] == log[i];
    }
  }

  /** A limiter's answer is never taken back, and a yes backs the request that asked. */
  lemma BackedGrows(l: Logs, asker: Rid, a: Asked, t: int, ok: bool, rid: Rid, key: string, gate: Gate)
    ensures Backed(l, rid, key, gate) ==> Backed(Logged(l, asker, a, t, ok), rid, key, gate)
    ensures a != Nobody && ok ==> Backed(Logged(l, asker, a, t, ok), asker, a.key, AskedGate(a))
  {
    if a != Nobody {
      HasYesGrows(LogOf(l, AskedGate(a)), Entry(asker, RateLimit.Call(a.key, t), ok), rid, key);
    }
  }

  lemma LogsGrow(c: Config, l: Logs, asker: Rid, a: Asked, t: int, ok: bool, stream: seq<Event>, inflight: map<Rid, Req>)
    requires StreamBacked(l, stream) && ReqsBacked(c, l, inflight)
    ensures StreamBacked(Logged(l, asker, a, t, ok), stream) && ReqsBacked(c, Logged(l, asker, a, t, ok), inflight)
  {
    forall rid, key, gate ensures Backed(l, rid, key, gate) ==> Backed(Logged(l, asker, a, t, ok), rid, key, gate) {
      BackedGrows(l, asker, a, t, ok, rid, key, gate);
    }
  }

  lemma MoreBacked(l: Logs, stream: seq<Event>, events: seq<Event>)
    requires StreamBacked(l, stream) && |events| <= 1 && (events != [] ==> EventBacked(l, events[0]))
    ensures StreamBacked(l, stream + events)
  {
  }

  lemma TakeKeepsCauses(c: Config, s: State, rid: Rid, x: Input)
    requires CauseInv(c, s) && rid in s.inflight
    ensures CauseInv(c, Next(c, s, Take(rid, x)))
  {
    var q := s.inflight[rid];
    var e := EffectOf(c, s.w, rid, q, x);
    var l' := Logged(s.logs, rid, e.asked, x.t, x.ok);
    LogsGrow(c, s.logs, rid, e.asked, x.t, x.ok, s.w.stream, s.inflight);
    if Unadmitted(q) {
      UnadmittedAsks(c, s.w, rid, q, x);
      BackedGrows(s.logs, rid, e.asked, x.t, x.ok, rid, KeyOf(q), LeaseGate);
    } else if IsSweep(q) {
      SweepAsksNobody(c, s.w, rid, q, x);
    } else {
      AdmittedSpends(c, s.w, rid, q, x);
    }
    MoreBacked(l', s.w.stream, e.events);
    assert e.next.Some? ==> ReqBacked(c, l', rid, e.next.value);
  }

  lemma NextKeepsCauses(c: Config, s: State, step: Step)
    requires CauseInv(c, s) && Possible(c, s, step)
    ensures CauseInv(c, Next(c, s, step))
  {
    if step.Take? {
      TakeKeepsCauses(c, s, step.rid, step.x);
    } else if !step.Reload? {
      assert ReqBacked(c, s.logs, step.rid, FirstReq(s.w, step));
    }
  }

  lemma {:induction false} RunKeepsCauses(c: Config, s: State, steps: seq<Step>)
    requires CauseInv(c, s) && IsRun(c, s, steps)
    ensures CauseInv(c, Run(c, s, steps))
    decreases |steps|
  {
    if steps != [] {
      NextKeepsCauses(c, s, steps[0]);
      RunKeepsCauses(c, Next(c, s, steps[0]), steps[1..]);
    }
  }

  /** In every interleaving, whatever the limiters answer: each event other than lease.expired was
      written by a request that the limiter for its kind of event said yes to, under the key of the
      event's own subject (for auth.failed, of its source). So the flood bound leaves no event of a
      subject out. */
  lemma EveryEventIsCounted(c: Config, s: State, steps: seq<Step>, n: nat)
    requires Init(c, s) && IsRun(c, s, steps) && n < |Run(c, s, steps).w.stream|
    ensures EventBacked(Run(c, s, steps).logs, Run(c, s, steps).w.stream[n])
  {
    RunKeepsCauses(c, s, steps);
  }

  // ----- Aggregated events -----

  /** Events that stand for many: a throttled subject's denial, a source's failed authentication. */
  predicate Aggregated(e: Event) {
    EventGate(e) == ThrottleGate || EventGate(e) == AuthGate
  }

  lemma {:induction false} GovernedRuns(c: Config, s: State, steps: seq<Step>)
    requires IsGoverned(c, s, steps)
    ensures IsRun(c, s, steps)
    decreases |steps|
  {
    if steps != [] {
      GovernedRuns(c, Next(c, s, steps[0]), steps[1..]);
    }
  }

  lemma {:induction false} CausesOne(stream: seq<Event>, m: nat)
    requires m < |stream|
    ensures Caused(stream, stream[m].rid) >= 1
  {
    var k := |stream| - 1;
    if m < k {
      CausesOne(stream[..k], m);
    }
  }

  lemma {:induction false} CausesTwo(stream: seq<Event>, m: nat, n: nat)
    requires m < n < |stream| && stream[m].rid == stream[n].rid
    ensures Caused(stream, stream[m].rid) >= 2
  {
    var k := |stream| - 1;
    if n < k {
      CausesTwo(stream[..k], m, n);
    } else {
      CausesOne(stream[..k], m);
    }
  }

  /** The calls behind the two events, in either order of the log, are a minute apart. */
  ghost predicate MinuteApart(log: seq<Entry>, e: Event, f: Event) {
    exists i, j :: 0 <= i < |log| && 0 <= j < |log| && Behind(log[i], e) && Behind(log[j], f)
                   && (log[j].call.at - log[i].call.at >= 60 * SECOND || log[i].call.at - log[j].call.at >= 60 * SECOND)
  }

  /** The limiter said yes to the request that wrote this event, under its key. */
  predicate Behind(entry: Entry, e: Event) {
    entry.ok && entry.rid == e.rid && entry.call.key == EventKey(e)
  }

  lemma BehindApart(log: seq<Entry>, e: Event, f: Event)
    requires Ruled(RateLimit.PerMinute(1.0, 1), log) && e.rid != f.rid && EventKey(e) == EventKey(f)
    requires HasYes(log, e.rid, EventKey(e)) && HasYes(log, f.rid, EventKey(f))
    ensures MinuteApart(log, e, f)
  {
    var i :| 0 <= i < |log| && log[i].rid == e.rid && log[i].ok && log[i].call.key == EventKey(e);
    var j :| 0 <= j < |log| && log[j].rid == f.rid && log[j].ok && log[j].call.key == EventKey(f);
    assert Behind(log[i], e) && Behind(log[j], f);
    SparseLog(log, i, j);
    SparseLog(log, j, i);
  }

  lemma DistinctRequests(c: Config, s: State, log: seq<Entry>, m: nat, n: nat)
    requires m < n < |s.w.stream| && Covered(c, s, log, 1) && HasYes(log, s.w.stream[m].rid, EventKey(s.w.stream[m]))
    ensures s.w.stream[m].rid != s.w.stream[n].rid
  {
    var i :| 0 <= i < |log| && log[i].rid == s.w.stream[m].rid && log[i].ok;
    assert Caused(s.w.stream, log[i].rid) <= Budget(c, s, log[i].rid);
    if s.w.stream[m].rid == s.w.stream[n].rid {
      CausesTwo(s.w.stream, m, n);
    }
  }

  /** Two events that aggregate for the same subject, or the same source, were written by different
      requests, and the calls that let these through were at least a minute apart. */
  lemma AggregatedEventsAreSparse(c: Config, s: State, steps: seq<Step>, m: nat, n: nat)
    requires Init(c, s) && IsGoverned(c, s, steps)
    requires var stream := Run(c, s, steps).w.stream;
             && m < n < |stream| && Aggregated(stream[m]) && EventGate(stream[m]) == EventGate(stream[n])
             && EventKey(stream[m]) == EventKey(stream[n])
    ensures var s' := Run(c, s, steps); var e, f := s'.w.stream[m], s'.w.stream[n];
            e.rid != f.rid && MinuteApart(LogOf(s'.logs, EventGate(e)), e, f)
  {
    var s' := Run(c, s, steps);
    var e, f := s'.w.stream[m], s'.w.stream[n];
    var log := LogOf(s'.logs, EventGate(e));
    GovernedRuns(c, s, steps);
    EveryEventIsCounted(c, s, steps, m);
    EveryEventIsCounted(c, s, steps, n);
    RunCovers(c, s, steps);
    DistinctRequests(c, s', log, m, n);
    BehindApart(log, e, f);
  }
}
