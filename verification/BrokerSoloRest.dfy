/** DELETE, the sweep, claims and failed authentication from start to end when nothing interferes,
    against their references. */
module BrokerSoloRest {
  import opened Base
  import opened Policy
  import opened Broker
  import opened BrokerFacts
  import opened BrokerSolo
  import LeaseStore

  // ----- Surrender -----

  /** What DELETE does: input 0 is the limiter's, 3 the audit write's. */
  ghost function SurrenderOutcome(w: World, rid: Rid, sub: Subject, id: string, xs: seq<Input>): Outcome
    requires |xs| >= 5
  {
    if !xs[0].ok then Outcome(Table(w), ThrottleEvents(w, rid, sub, xs[1].ok, xs[2].ok), [])
    else HeldOutcome(w, rid, sub, id, xs[3].ok)
  }

  /** ... past the limiter: a live lease of the caller's is told and marked, or left alone. */
  ghost function HeldOutcome(w: World, rid: Rid, sub: Subject, id: string, written: bool): Outcome {
    var t := Table(w);
    if id in t && t[id].subjectKey == Key(sub) && !t[id].surrendered && written
    then Outcome(t[id := t[id].(surrendered := true)], [Surrendered(rid, sub, id, t[id].scope, PolicyAt(w, Newest(w)).hash)], [])
    else Outcome(t, [], [])
  }

  lemma SurrenderFirstSteps(f: Stepper, c: Config, rid: Rid, w: World, sub: Subject, id: string, x: Input)
    requires StepsAs(f, c, rid)
    ensures f(w, SurrenderAdmit(sub, id), x) == Goes(if x.ok then SurrenderGet(sub, id) else Throttled(sub)).(asked := LeaseLimiter(Key(sub)))
    ensures f(w, SurrenderGet(sub, id), x) ==
            (if id in Table(w) && Table(w)[id].subjectKey == Key(sub) && !Table(w)[id].surrendered then Goes(SurrenderHash(sub, Table(w)[id])) else RETURNS)
  {
    assert Stepping(w, SurrenderAdmit(sub, id), x) && Stepping(w, SurrenderGet(sub, id), x);
  }

  lemma SurrenderHashStep(f: Stepper, c: Config, rid: Rid, w: World, sub: Subject, l: Lease, x: Input)
    requires StepsAs(f, c, rid)
    ensures f(w, SurrenderHash(sub, l), x) == Goes(SurrenderEmit(sub, Newest(w), l))
  {
    assert Stepping(w, SurrenderHash(sub, l), x);
  }

  lemma SurrenderLastSteps(f: Stepper, c: Config, rid: Rid, w: World, sub: Subject, pol: nat, l: Lease, x: Input)
    requires StepsAs(f, c, rid)
    ensures f(w, SurrenderEmit(sub, pol, l), x) ==
            (if x.ok then Goes(SurrenderMark(l.id)).(events := [Surrendered(rid, sub, l.id, l.scope, PolicyAt(w, pol).hash)]) else RETURNS)
    ensures f(w, SurrenderMark(l.id), x) == RETURNS.(change := Marks(l.id))
  {
    assert Stepping(w, SurrenderEmit(sub, pol, l), x) && Stepping(w, SurrenderMark(l.id), x);
  }

  lemma SurrenderEmitAlone(f: Stepper, c: Config, w: World, rid: Rid, sub: Subject, id: string, xs: seq<Input>)
    requires StepsAs(f, c, rid) && |xs| >= 2 && Orderly(w)
    requires id in Table(w) && Table(w)[id].subjectKey == Key(sub) && !Table(w)[id].surrendered
    ensures Leaves(w, Alone(f, w, Some(SurrenderEmit(sub, Newest(w), Table(w)[id])), xs), HeldOutcome(w, rid, sub, id, xs[0].ok))
  {
    var l, pol := Table(w)[id], Newest(w);
    var q := SurrenderEmit(sub, pol, l);
    assert l == w.records[id] && l.id == id;
    SurrenderLastSteps(f, c, rid, w, sub, pol, l, xs[0]);
    var e := f(w, q, xs[0]);
    if xs[0].ok {
      var w' := Apply(w, xs[0].t2, e);
      assert w.replies + [] == w.replies && Table(w') == Table(w);
      SurrenderLastSteps(f, c, rid, w', sub, pol, l, xs[1]);
      var e' := f(w', SurrenderMark(id), xs[1]);
      ReturnsChanged(f, w', SurrenderMark(id), xs[1..], e');
      TableAfter(w', xs[1].t2, e');
      assert w'.stream + [] == w'.stream;
    } else {
      Returns(f, w, q, xs, e);
    }
  }

  lemma SurrenderGetAlone(f: Stepper, c: Config, w: World, rid: Rid, sub: Subject, id: string, xs: seq<Input>)
    requires StepsAs(f, c, rid) && |xs| >= 4 && Orderly(w)
    ensures Leaves(w, Alone(f, w, Some(SurrenderGet(sub, id)), xs), HeldOutcome(w, rid, sub, id, xs[2].ok))
  {
    var q, w' := SurrenderGet(sub, id), At(w, xs[0].t2);
    SurrenderFirstSteps(f, c, rid, w, sub, id, xs[0]);
    if id in Table(w) && Table(w)[id].subjectKey == Key(sub) && !Table(w)[id].surrendered {
      var l, w'' := Table(w)[id], At(w', xs[1].t2);
      Passes(f, w, q, xs, f(w, q, xs[0]));
      SurrenderHashStep(f, c, rid, w', sub, l, xs[1]);
      Passes(f, w', SurrenderHash(sub, l), xs[1..], f(w', SurrenderHash(sub, l), xs[1]));
      SameTable(w, w'');
      assert xs[1..][1..] == xs[2..];
      SurrenderEmitAlone(f, c, w'', rid, sub, id, xs[2..]);
      LeavesFrom(w, w'', Alone(f, w'', Some(SurrenderEmit(sub, Newest(w), l)), xs[2..]), HeldOutcome(w, rid, sub, id, xs[2].ok));
    } else {
      Returns(f, w, q, xs, f(w, q, xs[0]));
    }
  }

  /** DELETE, run to its end, does what the reference says: exactly a lease in the table that the
      caller holds and that is not surrendered is told to the stream and then marked; if it cannot be
      told, it is left as it is. */
  lemma SurrenderAlone(f: Stepper, c: Config, w: World, rid: Rid, sub: Subject, id: string, xs: seq<Input>)
    requires StepsAs(f, c, rid) && |xs| >= 5 && Orderly(w)
    ensures Leaves(w, Alone(f, w, Some(SurrenderAdmit(sub, id)), xs), SurrenderOutcome(w, rid, sub, id, xs))
  {
    var q, w' := SurrenderAdmit(sub, id), At(w, xs[0].t2);
    SurrenderFirstSteps(f, c, rid, w, sub, id, xs[0]);
    Passes(f, w, q, xs, f(w, q, xs[0]));
    SameTable(w, w');
    if xs[0].ok {
      SurrenderGetAlone(f, c, w', rid, sub, id, xs[1..]);
      LeavesFrom(w, w', Alone(f, w', Some(SurrenderGet(sub, id)), xs[1..]), SurrenderOutcome(w, rid, sub, id, xs));
    } else {
      ThrottledAlone(f, c, w', rid, sub, xs[1..]);
      LeavesFrom(w, w', Alone(f, w', Some(Throttled(sub)), xs[1..]), SurrenderOutcome(w, rid, sub, id, xs));
    }
  }

  // ----- Sweep -----

  /** What a sweep at now leaves of the table: leases past expiry and retention go, and those past
      expiry that are neither surrendered nor reported yet are flagged as reported. */
  ghost function SweptTable(t: LeaseStore.Table, now: int, retain: int): LeaseStore.Table {
    map id | id in t && now <= t[id].expiresAt + retain ::
      if now > t[id].expiresAt && !t[id].surrendered && !t[id].expiredEmit then t[id].(expiredEmit := true) else t[id]
  }

  /** One event per lease reported, as far as the writes succeed. */
  ghost function SweepEvents(rid: Rid, hash: string, out: seq<Lease>, xs: seq<Input>): seq<Event>
    requires |xs| >= |out|
  {
    if out == [] then []
    else
      var l := out[0];
      (if xs[0].ok then [Expired(rid, SubjectOfKey(l.subjectKey), l.id, l.scope, WholeSeconds(l.expiresAt), hash)] else [])
      + SweepEvents(rid, hash, out[1..], xs[1..])
  }

  lemma SweepFirstSteps(f: Stepper, c: Config, rid: Rid, w: World, retain: int, pol: nat, x: Input)
    requires StepsAs(f, c, rid)
    ensures f(w, SweepBegun(retain), x) == Goes(SweepTable(retain, Newest(w)))
    ensures f(w, SweepTable(retain, pol), x) == Goes(SweepEmit(x.out, pol)).(change := Sweeps(x.t, retain))
  {
    assert Stepping(w, SweepBegun(retain), x) && Stepping(w, SweepTable(retain, pol), x);
  }

  lemma SweepEmitStep(f: Stepper, c: Config, rid: Rid, w: World, pol: nat, left: seq<Lease>, x: Input)
    requires StepsAs(f, c, rid)
    ensures f(w, SweepEmit(left, pol), x) ==
            (if left == [] then RETURNS
             else Goes(SweepEmit(left[1..], pol)).(events := if x.ok then [Expired(rid, SubjectOfKey(left[0].subjectKey), left[0].id, left[0].scope, WholeSeconds(left[0].expiresAt), PolicyAt(w, pol).hash)] else []))
  {
    assert Stepping(w, SweepEmit(left, pol), x);
  }

  lemma {:induction false} SweepEmitAlone(f: Stepper, c: Config, w: World, rid: Rid, pol: nat, left: seq<Lease>, xs: seq<Input>)
    requires StepsAs(f, c, rid) && |xs| > |left|
    ensures Leaves(w, Alone(f, w, Some(SweepEmit(left, pol)), xs), Outcome(Table(w), SweepEvents(rid, PolicyAt(w, pol).hash, left, xs), []))
    decreases |left|
  {
    var q := SweepEmit(left, pol);
    SweepEmitStep(f, c, rid, w, pol, left, xs[0]);
    var e := f(w, q, xs[0]);
    if left == [] {
      Returns(f, w, q, xs, e);
    } else {
      var w' := Apply(w, xs[0].t2, e);
      assert w.replies + [] == w.replies && Table(w') == Table(w);
      SweepEmitAlone(f, c, w', rid, pol, left[1..], xs[1..]);
      var later := SweepEvents(rid, PolicyAt(w, pol).hash, left[1..], xs[1..]);
      assert w.stream + e.events + later == w.stream + (e.events + later);
    }
  }

  lemma SweptTableIs(t: LeaseStore.Table, now: int, retain: int)
    ensures LeaseStore.AfterSweep(t, now, retain) == SweptTable(t, now, retain)
  {
  }

  /** SweepExpiredLeases, run to its end: the table is swept at one clock reading, and every lease it
      newly found expired gets its event, as far as the writes succeed. */
  lemma SweepAlone(f: Stepper, c: Config, w: World, rid: Rid, retain: int, xs: seq<Input>)
    requires StepsAs(f, c, rid) && w.present <= w.records.Keys && |xs| >= 2 && |xs| > 2 + |xs[1].out| && LeaseStore.SweepReturns(Table(w), xs[1].t, xs[1].out)
    ensures Leaves(w, Alone(f, w, Some(SweepBegun(retain)), xs),
                   Outcome(SweptTable(Table(w), xs[1].t, retain), SweepEvents(rid, PolicyAt(w, Newest(w)).hash, xs[1].out, xs[2..]), []))
    ensures forall id :: (exists i :: 0 <= i < |xs[1].out| && xs[1].out[i].id == id) <==>
                         id in Table(w) && xs[1].t > Table(w)[id].expiresAt && !Table(w)[id].surrendered && !Table(w)[id].expiredEmit
  {
    var w', pol := At(w, xs[0].t2), Newest(w);
    SweepFirstSteps(f, c, rid, w, retain, pol, xs[0]);
    Passes(f, w, SweepBegun(retain), xs, f(w, SweepBegun(retain), xs[0]));
    SameTable(w, w');
    SweepFirstSteps(f, c, rid, w', retain, pol, xs[1]);
    var e := f(w', SweepTable(retain, pol), xs[1]);
    var w'' := Apply(w', xs[1].t2, e);
    TableAfter(w', xs[1].t2, e);
    SweptTableIs(Table(w), xs[1].t, retain);
    assert w.stream + [] == w.stream && w.replies + [] == w.replies && xs[1..][1..] == xs[2..];
    SweepEmitAlone(f, c, w'', rid, pol, xs[1].out, xs[2..]);
  }

  // ----- Claims -----

  /** How many of the first n writes succeed before one fails. */
  function Leading(xs: seq<Input>, n: nat): (k: nat)
    requires |xs| >= n
    ensures k <= n && (forall i | 0 <= i < k :: xs[i].ok) && (k < n ==> !xs[k].ok)
  {
    if n == 0 || !xs[0].ok then 0 else 1 + Leading(xs[1..], n - 1)
  }

  function Claimed(rid: Rid, sub: Subject, k: nat): seq<Event> {
    seq(k, _ => ClaimRecorded(rid, sub))
  }

  /** What POST /v1/claims does to the stream: input 0 is the limiter's, 1 the checks'. */
  ghost function ClaimsEvents(c: Config, w: World, rid: Rid, sub: Subject, n: nat, xs: seq<Input>): seq<Event>
    requires |xs| >= n + 3
  {
    if !xs[0].ok then ThrottleEvents(w, rid, sub, xs[1].ok, xs[2].ok)
    else if n == 0 || n > c.maxClaims || xs[1].refused then []
    else Claimed(rid, sub, Leading(xs[2..], n))
  }

  lemma ClaimsFirstSteps(f: Stepper, c: Config, rid: Rid, w: World, sub: Subject, n: nat, x: Input)
    requires StepsAs(f, c, rid)
    ensures f(w, ClaimsAdmit(sub, n), x) == Goes(if x.ok then ClaimsCheck(sub, n) else Throttled(sub)).(asked := ClaimLimiter(Key(sub)))
    ensures f(w, ClaimsCheck(sub, n), x) == if n == 0 || n > c.maxClaims || x.refused then RETURNS else Goes(ClaimsEmit(sub, n))
  {
    assert Stepping(w, ClaimsAdmit(sub, n), x) && Stepping(w, ClaimsCheck(sub, n), x);
  }

  lemma ClaimsEmitStep(f: Stepper, c: Config, rid: Rid, w: World, sub: Subject, n: nat, x: Input)
    requires StepsAs(f, c, rid)
    ensures f(w, ClaimsEmit(sub, n), x) == if n == 0 || !x.ok then RETURNS else Goes(ClaimsEmit(sub, n - 1)).(events := [ClaimRecorded(rid, sub)])
  {
    assert Stepping(w, ClaimsEmit(sub, n), x);
  }

  lemma {:induction false} ClaimsEmitAlone(f: Stepper, c: Config, w: World, rid: Rid, sub: Subject, n: nat, xs: seq<Input>)
    requires StepsAs(f, c, rid) && |xs| > n
    ensures Leaves(w, Alone(f, w, Some(ClaimsEmit(sub, n)), xs), Outcome(Table(w), Claimed(rid, sub, Leading(xs, n)), []))
    decreases n
  {
    var q := ClaimsEmit(sub, n);
    ClaimsEmitStep(f, c, rid, w, sub, n, xs[0]);
    var e := f(w, q, xs[0]);
    if n == 0 || !xs[0].ok {
      Returns(f, w, q, xs, e);
    } else {
      var w' := Apply(w, xs[0].t2, e);
      assert w.replies + [] == w.replies && Table(w') == Table(w);
      ClaimsEmitAlone(f, c, w', rid, sub, n - 1, xs[1..]);
      var k := Leading(xs[1..], n - 1);
      assert e.events + Claimed(rid, sub, k) == Claimed(rid, sub, k + 1);
      assert w.stream + e.events + Claimed(rid, sub, k) == w.stream + (e.events + Claimed(rid, sub, k));
    }
  }

  lemma ClaimsCheckAlone(f: Stepper, c: Config, w: World, rid: Rid, sub: Subject, n: nat, xs: seq<Input>)
    requires StepsAs(f, c, rid) && |xs| >= n + 2
    ensures Leaves(w, Alone(f, w, Some(ClaimsCheck(sub, n)), xs),
                   Outcome(Table(w), if n == 0 || n > c.maxClaims || xs[0].refused then [] else Claimed(rid, sub, Leading(xs[1..], n)), []))
  {
    var q, w' := ClaimsCheck(sub, n), At(w, xs[0].t2);
    ClaimsFirstSteps(f, c, rid, w, sub, n, xs[0]);
    if n == 0 || n > c.maxClaims || xs[0].refused {
      Returns(f, w, q, xs, f(w, q, xs[0]));
    } else {
      Passes(f, w, q, xs, f(w, q, xs[0]));
      SameTable(w, w');
      ClaimsEmitAlone(f, c, w', rid, sub, n, xs[1..]);
      LeavesFrom(w, w', Alone(f, w', Some(ClaimsEmit(sub, n)), xs[1..]), Outcome(Table(w), Claimed(rid, sub, Leading(xs[1..], n)), []));
    }
  }

  lemma ClaimsAlone(f: Stepper, c: Config, w: World, rid: Rid, sub: Subject, n: nat, xs: seq<Input>)
    requires StepsAs(f, c, rid) && |xs| >= n + 3
    ensures Leaves(w, Alone(f, w, Some(ClaimsAdmit(sub, n)), xs), Outcome(Table(w), ClaimsEvents(c, w, rid, sub, n, xs), []))
  {
    var q, w' := ClaimsAdmit(sub, n), At(w, xs[0].t2);
    ClaimsFirstSteps(f, c, rid, w, sub, n, xs[0]);
    Passes(f, w, q, xs, f(w, q, xs[0]));
    SameTable(w, w');
    if xs[0].ok {
      ClaimsCheckAlone(f, c, w', rid, sub, n, xs[1..]);
      assert xs[1..][1..] == xs[2..];
      LeavesFrom(w, w', Alone(f, w', Some(ClaimsCheck(sub, n)), xs[1..]), Outcome(Table(w), ClaimsEvents(c, w, rid, sub, n, xs), []));
    } else {
      ThrottledAlone(f, c, w', rid, sub, xs[1..]);
      LeavesFrom(w, w', Alone(f, w', Some(Throttled(sub)), xs[1..]), Outcome(Table(w), ClaimsEvents(c, w, rid, sub, n, xs), []));
    }
  }

  // ----- Failed authentication -----

  lemma AuthSteps(f: Stepper, c: Config, rid: Rid, w: World, source: string, x: Input)
    requires StepsAs(f, c, rid)
    ensures f(w, AuthAsk(source), x) == (if x.ok then Goes(AuthEmit(source)) else RETURNS).(asked := AuthLimiter(source))
    ensures f(w, AuthEmit(source), x) == RETURNS.(events := Best(x.ok, AuthFailed(rid, source)))
  {
    assert Stepping(w, AuthAsk(source), x) && Stepping(w, AuthEmit(source), x);
  }

  /** A failed authentication is written when its limiter samples it and the write succeeds. */
  lemma AuthAlone(f: Stepper, c: Config, w: World, rid: Rid, source: string, xs: seq<Input>)
    requires StepsAs(f, c, rid) && |xs| >= 2
    ensures Leaves(w, Alone(f, w, Some(AuthAsk(source)), xs), Outcome(Table(w), if xs[0].ok && xs[1].ok then [AuthFailed(rid, source)] else [], []))
  {
    var w' := At(w, xs[0].t2);
    AuthSteps(f, c, rid, w, source, xs[0]);
    AuthSteps(f, c, rid, w', source, xs[1]);
    if xs[0].ok {
      Passes(f, w, AuthAsk(source), xs, f(w, AuthAsk(source), xs[0]));
      Returns(f, w', AuthEmit(source), xs[1..], f(w', AuthEmit(source), xs[1]));
      SameTable(w, w');
      LeavesFrom(w, w', Alone(f, w', Some(AuthEmit(source)), xs[1..]), Outcome(Table(w), if xs[1].ok then [AuthFailed(rid, source)] else [], []));
    } else {
      Returns(f, w, AuthAsk(source), xs, f(w, AuthAsk(source), xs[0]));
    }
  }
}
