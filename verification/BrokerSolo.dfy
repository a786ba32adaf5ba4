/** What each handler does from start to end when nothing interferes, against a reference written as
    one decision: who is refused and why, what is written, and what the caller gets. */
module BrokerSolo {
  import opened Base
  import opened Policy
  import opened Broker
  import opened BrokerFacts
  import opened BrokerStarts
  import LeaseStore

  // ----- A handler on its own -----

  /** One step of a request, whatever it is. */
  type Stepper = (World, Req, Input) -> Effect

  /** Names a step. */
  predicate Stepping(w: World, q: Req, x: Input) {
    true
  }

  /** The stepper is request rid's own. */
  ghost predicate StepsAs(f: Stepper, c: Config, rid: Rid) {
    forall w: World, q: Req, x: Input {:trigger Stepping(w, q, x)} :: Stepping(w, q, x) ==> f(w, q, x) == EffectOf(c, w, rid, q, x)
  }

  /** The world a request leaves behind when it takes its steps with these inputs, and what it still
      has to do. */
  function Alone(f: Stepper, w: World, q: Option<Req>, xs: seq<Input>): (World, Option<Req>)
    decreases |xs|
  {
    if q.None? || xs == [] then (w, q)
    else
      var e := f(w, q.value, xs[0]);
      Alone(f, Apply(w, xs[0].t2, e), e.next, xs[1..])
  }

  function At(w: World, t: int): World {
    w.(clock := t)
  }

  /** A step that goes on and changes nothing but the request itself. */
  lemma Passes(f: Stepper, w: World, q: Req, xs: seq<Input>, e: Effect)
    requires xs != [] && f(w, q, xs[0]) == e && e.change == Nothing && e.events == [] && e.replies == []
    ensures Alone(f, w, Some(q), xs) == Alone(f, At(w, xs[0].t2), e.next, xs[1..])
  {
    assert w.stream + [] == w.stream && w.replies + [] == w.replies;
  }

  // ----- In the machine -----

  function TakesOf(rid: Rid, xs: seq<Input>): seq<Step> {
    seq(|xs|, i requires 0 <= i < |xs| => Take(rid, xs[i]))
  }

  lemma {:induction false} NobodyTakes(c: Config, s: State, rid: Rid, xs: seq<Input>)
    requires rid !in s.inflight
    ensures Run(c, s, TakesOf(rid, xs)) == s
    decreases |xs|
  {
    if xs != [] {
      NobodyTakes(c, s, rid, xs[1..]);
      assert TakesOf(rid, xs)[1..] == TakesOf(rid, xs[1..]);
    }
  }

  /** A run in which only request rid takes steps is that request on its own. */
  lemma {:induction false} AloneIsRun(f: Stepper, c: Config, s: State, rid: Rid, xs: seq<Input>)
    requires StepsAs(f, c, rid) && rid in s.inflight
    ensures Run(c, s, TakesOf(rid, xs)).w == Alone(f, s.w, Some(s.inflight[rid]), xs).0
    decreases |xs|
  {
    if xs != [] {
      assert Stepping(s.w, s.inflight[rid], xs[0]) && TakesOf(rid, xs)[1..] == TakesOf(rid, xs[1..]);
      var s' := Next(c, s, Take(rid, xs[0]));
      if rid in s'.inflight {
        AloneIsRun(f, c, s', rid, xs[1..]);
      } else {
        NobodyTakes(c, s', rid, xs[1..]);
      }
    }
  }

  // ----- What a handler leaves behind -----

  /** The table, the events added and the replies added. */
  datatype Outcome = Outcome(table: LeaseStore.Table, events: seq<Event>, replies: seq<Reply>)

  /** The handler has returned, and left this. */
  ghost predicate Leaves(w: World, r: (World, Option<Req>), o: Outcome) {
    && r.1.None? && Table(r.0) == o.table && r.0.stream == w.stream + o.events && r.0.replies == w.replies + o.replies
    && r.0.policies == w.policies
  }

  /** Apart from the clock, the world is as it was. */
  ghost predicate Same(w: World, w': World) {
    && w'.records == w.records && w'.present == w.present && w'.stream == w.stream && w'.policies == w.policies && w'.replies == w.replies
  }

  lemma SameTable(w: World, w': World)
    requires Same(w, w')
    ensures Table(w') == Table(w) && Newest(w') == Newest(w) && PolicyAt(w', Newest(w')) == PolicyAt(w, Newest(w))
  {
  }

  lemma LeavesFrom(w: World, w': World, r: (World, Option<Req>), o: Outcome)
    requires Same(w, w') && Leaves(w', r, o)
    ensures Leaves(w, r, o)
  {
  }

  /** The last step, if it changes nothing but the stream and the replies. */
  lemma Returns(f: Stepper, w: World, q: Req, xs: seq<Input>, e: Effect)
    requires xs != [] && f(w, q, xs[0]) == e && e.next == None && e.change == Nothing
    ensures Leaves(w, Alone(f, w, Some(q), xs), Outcome(Table(w), e.events, e.replies))
  {
    var w' := Apply(w, xs[0].t2, e);
    assert Table(w') == Table(w);
  }

  /** The last step, if it changes the table. */
  lemma ReturnsChanged(f: Stepper, w: World, q: Req, xs: seq<Input>, e: Effect)
    requires xs != [] && f(w, q, xs[0]) == e && e.next == None && e.events == [] && e.replies == []
    ensures Leaves(w, Alone(f, w, Some(q), xs), Outcome(Table(Apply(w, xs[0].t2, e)), [], []))
  {
  }

  // ----- Throttled -----

  lemma ThrottleSteps(f: Stepper, c: Config, rid: Rid, w: World, sub: Subject, pol: nat, x: Input)
    requires StepsAs(f, c, rid)
    ensures f(w, Throttled(sub), x) == (if x.ok then Goes(ThrottleEmit(sub, Newest(w))) else RETURNS).(asked := ThrottleLimiter(Key(sub)))
    ensures f(w, ThrottleEmit(sub, pol), x) == RETURNS.(events := Best(x.ok, Denied(rid, sub, true, PolicyAt(w, pol).hash)))
  {
    assert Stepping(w, Throttled(sub), x) && Stepping(w, ThrottleEmit(sub, pol), x);
  }

  /** A throttled subject leaves at most the one event that samples it. */
  function ThrottleEvents(w: World, rid: Rid, sub: Subject, sampled: bool, written: bool): seq<Event> {
    if sampled && written then [Denied(rid, sub, true, PolicyAt(w, Newest(w)).hash)] else []
  }

  lemma ThrottledAlone(f: Stepper, c: Config, w: World, rid: Rid, sub: Subject, xs: seq<Input>)
    requires StepsAs(f, c, rid) && |xs| >= 2
    ensures Leaves(w, Alone(f, w, Some(Throttled(sub)), xs), Outcome(Table(w), ThrottleEvents(w, rid, sub, xs[0].ok, xs[1].ok), []))
  {
    var w', pol := At(w, xs[0].t2), Newest(w);
    ThrottleSteps(f, c, rid, w, sub, pol, xs[0]);
    ThrottleSteps(f, c, rid, w', sub, pol, xs[1]);
    if xs[0].ok {
      Passes(f, w, Throttled(sub), xs, f(w, Throttled(sub), xs[0]));
      Returns(f, w', ThrottleEmit(sub, pol), xs[1..], f(w', ThrottleEmit(sub, pol), xs[1]));
      SameTable(w, w');
      LeavesFrom(w, w', Alone(f, w', Some(ThrottleEmit(sub, pol)), xs[1..]), Outcome(Table(w), ThrottleEvents(w, rid, sub, true, xs[1].ok), []));
    } else {
      Returns(f, w, Throttled(sub), xs, f(w, Throttled(sub), xs[0]));
    }
  }

  // ----- Renew -----

  /** The policy grants the scope to sub with renewal. */
  ghost predicate RenewableGrant(p: Policy, sub: Subject, scope: string) {
    GrantOf(p, Key(sub), scope).Some? && GrantOf(p, Key(sub), scope).value.renewable
  }

  /** What POST renew does: input 0 is the limiter's, 2 the body's, 3 the store's, 4 the audit write's. */
  ghost function RenewOutcome(w: World, rid: Rid, sub: Subject, id: string, asked: int, xs: seq<Input>): Outcome
    requires |xs| >= 6
  {
    var t := Table(w);
    if !xs[0].ok then Outcome(t, ThrottleEvents(w, rid, sub, xs[1].ok, xs[2].ok), [])
    else if id in t && t[id].subjectKey == Key(sub) then HeldOutcome(w, rid, sub, id, asked, xs[2..])
    else Outcome(t, [], [])
  }

  /** ... once it is known that the caller holds the lease. */
  ghost function HeldOutcome(w: World, rid: Rid, sub: Subject, id: string, asked: int, xs: seq<Input>): Outcome
    requires |xs| >= 4 && id in Table(w)
  {
    var l, p := Table(w)[id], PolicyAt(w, Newest(w));
    if RenewableGrant(p, sub, l.scope) && !xs[0].refused && asked >= 0
    then StoreOutcome(w, rid, sub, id, WantedTtl(asked, GrantOf(p, Key(sub), l.scope).value), xs[1..])
    else Outcome(Table(w), [], [])
  }

  /** ... and that the policy grants it ttl more. */
  ghost function StoreOutcome(w: World, rid: Rid, sub: Subject, id: string, ttl: int, xs: seq<Input>): Outcome
    requires |xs| >= 3 && id in Table(w)
  {
    var t, l := Table(w), Table(w)[id];
    if l.surrendered || xs[0].t > l.expiresAt || !l.renewable then Outcome(t, [], [])
    else WrittenOutcome(w, rid, sub, l.(expiresAt := xs[0].t2 + ttl), xs[1].ok)
  }

  /** ... and that the store has extended it: told, or killed. */
  ghost function WrittenOutcome(w: World, rid: Rid, sub: Subject, l: Lease, written: bool): Outcome {
    if written then Outcome(Table(w)[l.id := l], [Renewed(rid, sub, l.id, l.scope, WholeSeconds(l.expiresAt), PolicyAt(w, Newest(w)).hash)], [])
    else Outcome(Table(w)[l.id := l.(surrendered := true)], [], [])
  }

  ghost predicate Orderly(w: World) {
    w.present <= w.records.Keys && RecordsKeyed(w) && w.policies != [] && GrantsSane(w)
  }

  /** Every reachable state is orderly. */
  lemma ReachableIsOrderly(c: Config, s: State, steps: seq<Step>)
    requires Init(c, s) && IsRun(c, s, steps)
    ensures Orderly(Run(c, s, steps).w)
  {
    ReachableFacts(c, s, steps);
    PoliciesAreSane(c, Run(c, s, steps).w);
    KeyedRecords(c, Run(c, s, steps).w);
  }

  lemma RenewFirstSteps(f: Stepper, c: Config, rid: Rid, w: World, sub: Subject, id: string, asked: int, x: Input)
    requires StepsAs(f, c, rid)
    ensures f(w, RenewAdmit(sub, id, asked), x) == Goes(if x.ok then RenewGet(sub, id, asked) else Throttled(sub)).(asked := LeaseLimiter(Key(sub)))
    ensures f(w, RenewGet(sub, id, asked), x) ==
            (if id in Table(w) && Table(w)[id].subjectKey == Key(sub) then Goes(RenewPolicy(sub, asked, Table(w)[id])) else RETURNS)
  {
    assert Stepping(w, RenewAdmit(sub, id, asked), x) && Stepping(w, RenewGet(sub, id, asked), x);
  }

  lemma RenewPolicyStep(f: Stepper, c: Config, rid: Rid, w: World, sub: Subject, asked: int, l: Lease, x: Input)
    requires StepsAs(f, c, rid) && w.policies != [] && GrantsSane(w) && IsInt64(asked)
    ensures var p := PolicyAt(w, Newest(w)); var e := f(w, RenewPolicy(sub, asked, l), x);
            if RenewableGrant(p, sub, l.scope) && !x.refused && asked >= 0
            then ClampTtl(asked, GrantOf(p, Key(sub), l.scope).value).Some?
                 && ClampTtl(asked, GrantOf(p, Key(sub), l.scope).value).value == WantedTtl(asked, GrantOf(p, Key(sub), l.scope).value)
                 && e == Goes(RenewStore(sub, Newest(w), ClampTtl(asked, GrantOf(p, Key(sub), l.scope).value).value, l))
            else e == RETURNS
  {
    assert Stepping(w, RenewPolicy(sub, asked, l), x);
    var grant := GrantOf(w.policies[Newest(w)], Key(sub), l.scope);
    if grant.Some? {
      ClampIsWanted(asked, grant.value);
    }
  }

  lemma RenewStoreStep(f: Stepper, c: Config, rid: Rid, w: World, sub: Subject, pol: nat, ttl: Duration, id: string, x: Input)
    requires StepsAs(f, c, rid) && Orderly(w) && id in Table(w)
    ensures var l := Table(w)[id]; var l' := l.(expiresAt := x.t2 + ttl); var e := f(w, RenewStore(sub, pol, ttl, l), x);
            && l.id == id
            && if l.surrendered || x.t > l.expiresAt || !l.renewable then e == RETURNS
               else e == Goes(RenewEmit(sub, pol, l')).(change := Puts(l', Write(x.t2, rid, pol, Newest(w), false, None, x.t2)))
  {
    assert Stepping(w, RenewStore(sub, pol, ttl, Table(w)[id]), x);
    assert Table(w)[id] == w.records[id];
  }

  lemma RenewLastSteps(f: Stepper, c: Config, rid: Rid, w: World, sub: Subject, pol: nat, l: Lease, x: Input)
    requires StepsAs(f, c, rid)
    ensures f(w, RenewEmit(sub, pol, l), x) ==
            (if x.ok then RETURNS.(events := [Renewed(rid, sub, l.id, l.scope, WholeSeconds(l.expiresAt), PolicyAt(w, pol).hash)]) else Goes(RenewKill(l.id)))
    ensures f(w, RenewKill(l.id), x) == RETURNS.(change := Marks(l.id))
  {
    assert Stepping(w, RenewEmit(sub, pol, l), x) && Stepping(w, RenewKill(l.id), x);
  }

  /** w' is w with one lease put into its table. */
  ghost predicate Put(w: World, w': World, l: Lease) {
    && w'.records == w.records[l.id := l] && w'.present == w.present + {l.id} && w'.stream == w.stream && w'.replies == w.replies
    && w'.policies == w.policies && w.present <= w.records.Keys
  }

  lemma PutTable(w: World, w': World, l: Lease)
    requires Put(w, w', l)
    ensures Table(w') == Table(w)[l.id := l] && PolicyAt(w', Newest(w)) == PolicyAt(w, Newest(w)) && w'.present <= w'.records.Keys
  {
  }

  lemma RenewEmitAlone(f: Stepper, c: Config, w: World, w': World, rid: Rid, sub: Subject, l: Lease, xs: seq<Input>)
    requires StepsAs(f, c, rid) && |xs| >= 2 && Put(w, w', l)
    ensures Leaves(w, Alone(f, w', Some(RenewEmit(sub, Newest(w), l)), xs), WrittenOutcome(w, rid, sub, l, xs[0].ok))
  {
    var pol, w'' := Newest(w), At(w', xs[0].t2);
    PutTable(w, w', l);
    RenewLastSteps(f, c, rid, w', sub, pol, l, xs[0]);
    if xs[0].ok {
      Returns(f, w', RenewEmit(sub, pol, l), xs, f(w', RenewEmit(sub, pol, l), xs[0]));
    } else {
      Passes(f, w', RenewEmit(sub, pol, l), xs, f(w', RenewEmit(sub, pol, l), xs[0]));
      RenewLastSteps(f, c, rid, w'', sub, pol, l, xs[1]);
      ReturnsChanged(f, w'', RenewKill(l.id), xs[1..], f(w'', RenewKill(l.id), xs[1]));
      SameTable(w', w'');
      TableAfter(w'', xs[1].t2, f(w'', RenewKill(l.id), xs[1]));
      assert Table(w)[l.id := l][l.id := l.(surrendered := true)] == Table(w)[l.id := l.(surrendered := true)];
    }
  }

  lemma RenewStoreAlone(f: Stepper, c: Config, w: World, rid: Rid, sub: Subject, id: string, ttl: Duration, xs: seq<Input>)
    requires StepsAs(f, c, rid) && |xs| >= 3 && Orderly(w) && id in Table(w)
    ensures Leaves(w, Alone(f, w, Some(RenewStore(sub, Newest(w), ttl, Table(w)[id])), xs), StoreOutcome(w, rid, sub, id, ttl, xs))
  {
    var l, pol := Table(w)[id], Newest(w);
    var q, l' := RenewStore(sub, pol, ttl, l), l.(expiresAt := xs[0].t2 + ttl);
    RenewStoreStep(f, c, rid, w, sub, pol, ttl, id, xs[0]);
    var e := f(w, q, xs[0]);
    if l.surrendered || xs[0].t > l.expiresAt || !l.renewable {
      Returns(f, w, q, xs, e);
    } else {
      var w' := Apply(w, xs[0].t2, e);
      assert w.stream + [] == w.stream && w.replies + [] == w.replies;
      assert Put(w, w', l');
      RenewEmitAlone(f, c, w, w', rid, sub, l', xs[1..]);
    }
  }

  lemma RenewPolicyAlone(f: Stepper, c: Config, w: World, rid: Rid, sub: Subject, id: string, asked: int, xs: seq<Input>)
    requires StepsAs(f, c, rid) && |xs| >= 4 && Orderly(w) && IsInt64(asked) && id in Table(w)
    ensures Leaves(w, Alone(f, w, Some(RenewPolicy(sub, asked, Table(w)[id])), xs), HeldOutcome(w, rid, sub, id, asked, xs))
  {
    var l, p, w' := Table(w)[id], PolicyAt(w, Newest(w)), At(w, xs[0].t2);
    var q := RenewPolicy(sub, asked, l);
    RenewPolicyStep(f, c, rid, w, sub, asked, l, xs[0]);
    if RenewableGrant(p, sub, l.scope) && !xs[0].refused && asked >= 0 {
      var ttl := ClampTtl(asked, GrantOf(p, Key(sub), l.scope).value).value;
      Passes(f, w, q, xs, f(w, q, xs[0]));
      SameTable(w, w');
      RenewStoreAlone(f, c, w', rid, sub, id, ttl, xs[1..]);
      LeavesFrom(w, w', Alone(f, w', Some(RenewStore(sub, Newest(w), ttl, l)), xs[1..]), StoreOutcome(w', rid, sub, id, ttl, xs[1..]));
    } else {
      Returns(f, w, q, xs, f(w, q, xs[0]));
    }
  }

  lemma RenewGetAlone(f: Stepper, c: Config, w: World, rid: Rid, sub: Subject, id: string, asked: int, xs: seq<Input>)
    requires StepsAs(f, c, rid) && |xs| >= 5 && Orderly(w) && IsInt64(asked)
    ensures var o := if id in Table(w) && Table(w)[id].subjectKey == Key(sub) then HeldOutcome(w, rid, sub, id, asked, xs[1..]) else Outcome(Table(w), [], []);
            Leaves(w, Alone(f, w, Some(RenewGet(sub, id, asked)), xs), o)
  {
    var q, w' := RenewGet(sub, id, asked), At(w, xs[0].t2);
    RenewFirstSteps(f, c, rid, w, sub, id, asked, xs[0]);
    if id in Table(w) && Table(w)[id].subjectKey == Key(sub) {
      Passes(f, w, q, xs, f(w, q, xs[0]));
      SameTable(w, w');
      RenewPolicyAlone(f, c, w', rid, sub, id, asked, xs[1..]);
      LeavesFrom(w, w', Alone(f, w', Some(RenewPolicy(sub, asked, Table(w)[id])), xs[1..]), HeldOutcome(w', rid, sub, id, asked, xs[1..]));
    } else {
      Returns(f, w, q, xs, f(w, q, xs[0]));
    }
  }

  /** POST renew, run to its end, does what the reference says: it extends the lease exactly when the
      caller holds it, the policy in force grants its scope with renewal, the body is well formed, the
      time asked for is not negative, and the lease is renewable, not surrendered and not expired; if
      the event cannot be written the lease is killed. */
  lemma RenewAlone(f: Stepper, c: Config, w: World, rid: Rid, sub: Subject, id: string, asked: int, xs: seq<Input>)
    requires StepsAs(f, c, rid) && |xs| >= 6 && Orderly(w) && IsInt64(asked)
    ensures Leaves(w, Alone(f, w, Some(RenewAdmit(sub, id, asked)), xs), RenewOutcome(w, rid, sub, id, asked, xs))
  {
    var q, w' := RenewAdmit(sub, id, asked), At(w, xs[0].t2);
    RenewFirstSteps(f, c, rid, w, sub, id, asked, xs[0]);
    Passes(f, w, q, xs, f(w, q, xs[0]));
    SameTable(w, w');
    if xs[0].ok {
      RenewGetAlone(f, c, w', rid, sub, id, asked, xs[1..]);
      assert xs[1..][1..] == xs[2..];
      LeavesFrom(w, w', Alone(f, w', Some(RenewGet(sub, id, asked)), xs[1..]), RenewOutcome(w, rid, sub, id, asked, xs));
    } else {
      ThrottledAlone(f, c, w', rid, sub, xs[1..]);
      LeavesFrom(w, w', Alone(f, w', Some(Throttled(sub)), xs[1..]), RenewOutcome(w, rid, sub, id, asked, xs));
    }
  }
}
