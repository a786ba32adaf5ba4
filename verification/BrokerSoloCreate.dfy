/** POST /v1/leases from start to end when nothing interferes, against its reference. */
module BrokerSoloCreate {
  import opened Base
  import opened Policy
  import opened Broker
  import opened BrokerFacts
  import opened BrokerStarts
  import opened BrokerSolo
  import LeaseStore

  /** A request, with the policy its handler has read. */
  datatype Ask = Ask(sub: Subject, scope: string, asked: int, from: Span, pol: nat)

  function PolicyOf(w: World, a: Ask): Policy {
    PolicyAt(w, a.pol)
  }

  // ----- The reference -----

  /** What POST does: input 1 is the limiter's, 2 the body's and the checks', 3 the provider's, 4 the
      store's, 6 the audit write's; a denial is written with the input after the one that denies. */
  ghost function CreateOutcome(c: Config, w: World, rid: Rid, a: Ask, xs: seq<Input>): Outcome
    requires |xs| >= 8
  {
    if !xs[1].ok then Outcome(Table(w), ThrottleEvents(w, rid, a.sub, xs[2].ok, xs[3].ok), [])
    else CheckOutcome(c, w, rid, a, xs[2..])
  }

  /** ... past the limiter: a bad body or a negative time is refused without a trace; what the policy
      does not permit now, or no provider serves, is denied. */
  ghost function CheckOutcome(c: Config, w: World, rid: Rid, a: Ask, xs: seq<Input>): Outcome
    requires |xs| >= 6
  {
    if xs[0].refused then Outcome(Table(w), [], [])
    else if !Permits(c, PolicyOf(w, a), a.sub, a.scope, xs[0].t) then DenyOutcome(w, rid, a, xs[1].ok)
    else if a.asked < 0 then Outcome(Table(w), [], [])
    else if xs[0].fetch.NoProvider? then DenyOutcome(w, rid, a, xs[1].ok)
    else FetchOutcome(w, rid, a, xs[0].t, xs[1..])
  }

  ghost function DenyOutcome(w: World, rid: Rid, a: Ask, written: bool): Outcome {
    Outcome(Table(w), if written then [Denied(rid, a.sub, false, PolicyOf(w, a).hash)] else [], [])
  }

  /** ... permitted: a provider that fails is a denial, else a lease is made. */
  ghost function FetchOutcome(w: World, rid: Rid, a: Ask, checkedAt: int, xs: seq<Input>): Outcome
    requires |xs| >= 5 && GrantOf(PolicyOf(w, a), Key(a.sub), a.scope).Some?
  {
    if !xs[0].fetch.Fetched? then DenyOutcome(w, rid, a, xs[1].ok)
    else
      var g := GrantOf(PolicyOf(w, a), Key(a.sub), a.scope).value;
      LeaseOutcome(w, rid, a, checkedAt, g.renewable, Nearer(WantedTtl(a.asked, g), xs[0].fetch.expiresAt, xs[0].t), xs[1..])
  }

  /** ... made: told and disclosed, or undone. */
  ghost function LeaseOutcome(w: World, rid: Rid, a: Ask, checkedAt: int, renewable: bool, ttl: int, xs: seq<Input>): Outcome
    requires |xs| >= 4
  {
    var l := LeaseStore.Lease(xs[0].id, Key(a.sub), a.scope, xs[0].semantics, xs[0].t, xs[0].t + ttl, renewable, false, false);
    if xs[2].ok
    then Outcome(Table(w)[l.id := l], [Issued(rid, a.sub, l.id, a.scope, WholeSeconds(l.expiresAt), PolicyOf(w, a).hash)],
                 [Reply(rid, a.sub, a.scope, l.id, a.from, a.pol, Newest(w), checkedAt, |w.stream| + 1)])
    else Outcome(Table(w), [], [])
  }

  // ----- The steps -----

  lemma FirstSteps(f: Stepper, c: Config, rid: Rid, w: World, a: Ask, x: Input)
    requires StepsAs(f, c, rid)
    ensures f(w, CreateBegun(a.sub, a.scope, a.asked, a.from), x) == Goes(CreateAdmit(a.sub, a.scope, a.asked, a.from, Newest(w)))
    ensures f(w, CreateAdmit(a.sub, a.scope, a.asked, a.from, a.pol), x) ==
            Goes(if x.ok then CreateCheck(a.sub, a.scope, a.asked, a.from, a.pol) else Throttled(a.sub)).(asked := LeaseLimiter(Key(a.sub)))
    ensures f(w, CreateDeny(a.sub, a.pol), x) == RETURNS.(events := Best(x.ok, Denied(rid, a.sub, false, PolicyOf(w, a).hash)))
  {
    assert Stepping(w, CreateBegun(a.sub, a.scope, a.asked, a.from), x);
    assert Stepping(w, CreateAdmit(a.sub, a.scope, a.asked, a.from, a.pol), x) && Stepping(w, CreateDeny(a.sub, a.pol), x);
  }

  lemma CheckStep(f: Stepper, c: Config, rid: Rid, w: World, a: Ask, x: Input)
    requires StepsAs(f, c, rid) && GrantsSane(w) && a.pol < |w.policies| && NextIsLeast(c.sched) && IsInt64(a.asked)
    ensures var e := f(w, CreateCheck(a.sub, a.scope, a.asked, a.from, a.pol), x);
            if x.refused then e == RETURNS
            else if !Permits(c, PolicyOf(w, a), a.sub, a.scope, x.t) then e == Goes(CreateDeny(a.sub, a.pol))
            else if a.asked < 0 then e == RETURNS
            else if x.fetch.NoProvider? then e == Goes(CreateDeny(a.sub, a.pol))
            else
              var g := GrantOf(PolicyOf(w, a), Key(a.sub), a.scope).value;
              && ClampTtl(a.asked, g) == Some(WantedTtl(a.asked, g))
              && e == Goes(CreateFetch(a.sub, a.scope, a.from, a.pol, x.t, g, ClampTtl(a.asked, g).value))
  {
    assert Stepping(w, CreateCheck(a.sub, a.scope, a.asked, a.from, a.pol), x);
    var grant := GrantOf(w.policies[a.pol], Key(a.sub), a.scope);
    if grant.Some? {
      ClampIsWanted(a.asked, grant.value);
      OpenIffFired(c.sched, grant.value, x.t);
    }
  }

  lemma FetchStep(f: Stepper, c: Config, rid: Rid, w: World, a: Ask, checkedAt: int, g: Grant, ttl: Duration, x: Input)
    requires StepsAs(f, c, rid)
    ensures var e := f(w, CreateFetch(a.sub, a.scope, a.from, a.pol, checkedAt, g, ttl), x);
            if x.fetch.Fetched?
            then
              var up := x.fetch.expiresAt;
              ClampUpstream(ttl, up, x.t) == Nearer(ttl, up, x.t)
              && e == Goes(CreateStore(a.sub, a.scope, a.from, a.pol, checkedAt, g, ClampUpstream(ttl, up, x.t), up, x.t))
            else e == Goes(CreateDeny(a.sub, a.pol))
  {
    assert Stepping(w, CreateFetch(a.sub, a.scope, a.from, a.pol, checkedAt, g, ttl), x);
    if x.fetch.Fetched? {
      ClampIsNearer(ttl, x.fetch.expiresAt, x.t);
    }
  }

  lemma StoreStep(f: Stepper, c: Config, rid: Rid, w: World, a: Ask, checkedAt: int, g: Grant, ttl: Duration, up: Option<int>, at: int, x: Input)
    requires StepsAs(f, c, rid)
    ensures var l := LeaseStore.Lease(x.id, Key(a.sub), a.scope, x.semantics, x.t, x.t + ttl, g.renewable, false, false);
            f(w, CreateStore(a.sub, a.scope, a.from, a.pol, checkedAt, g, ttl, up, at), x) ==
            Goes(CreateBuild(a.sub, a.scope, a.from, a.pol, checkedAt, l.id)).(change := Puts(l, Write(x.t, rid, a.pol, Newest(w), true, up, at)))
  {
    assert Stepping(w, CreateStore(a.sub, a.scope, a.from, a.pol, checkedAt, g, ttl, up, at), x);
  }

  lemma LastSteps(f: Stepper, c: Config, rid: Rid, w: World, a: Ask, checkedAt: int, l: Lease, x: Input)
    requires StepsAs(f, c, rid) && l.id in w.records && w.records[l.id] == l
    ensures var seconds := WholeSeconds(l.expiresAt);
            && f(w, CreateBuild(a.sub, a.scope, a.from, a.pol, checkedAt, l.id), x) == Goes(CreateEmit(a.sub, a.scope, a.from, a.pol, checkedAt, l.id, seconds))
            && f(w, CreateEmit(a.sub, a.scope, a.from, a.pol, checkedAt, l.id, seconds), x) ==
               (if x.ok then Goes(CreateReply(a.sub, a.scope, a.from, a.pol, checkedAt, l.id)).(events := [Issued(rid, a.sub, l.id, a.scope, seconds, PolicyOf(w, a).hash)])
                else Goes(CreateUndo(l.id)))
    ensures f(w, CreateReply(a.sub, a.scope, a.from, a.pol, checkedAt, l.id), x) ==
            RETURNS.(replies := [Reply(rid, a.sub, a.scope, l.id, a.from, a.pol, Newest(w), checkedAt, |w.stream|)])
    ensures f(w, CreateUndo(l.id), x) == RETURNS.(change := Removes(l.id))
  {
    assert Stepping(w, CreateBuild(a.sub, a.scope, a.from, a.pol, checkedAt, l.id), x);
    assert Stepping(w, CreateEmit(a.sub, a.scope, a.from, a.pol, checkedAt, l.id, WholeSeconds(l.expiresAt)), x);
    assert Stepping(w, CreateReply(a.sub, a.scope, a.from, a.pol, checkedAt, l.id), x) && Stepping(w, CreateUndo(l.id), x);
  }

  // ----- From the end to the start -----

  lemma DenyAlone(f: Stepper, c: Config, w: World, w': World, rid: Rid, a: Ask, xs: seq<Input>)
    requires StepsAs(f, c, rid) && xs != [] && Same(w, w')
    ensures Leaves(w, Alone(f, w', Some(CreateDeny(a.sub, a.pol)), xs), DenyOutcome(w, rid, a, xs[0].ok))
  {
    FirstSteps(f, c, rid, w', a, xs[0]);
    Returns(f, w', CreateDeny(a.sub, a.pol), xs, f(w', CreateDeny(a.sub, a.pol), xs[0]));
    SameTable(w, w');
    LeavesFrom(w, w', Alone(f, w', Some(CreateDeny(a.sub, a.pol)), xs), DenyOutcome(w, rid, a, xs[0].ok));
  }

  /** The event has been written; the reply goes out. */
  lemma ReplyAlone(f: Stepper, c: Config, w: World, w': World, rid: Rid, a: Ask, checkedAt: int, l: Lease, events: seq<Event>, xs: seq<Input>)
    requires StepsAs(f, c, rid) && xs != [] && |events| == 1
    requires w'.records == w.records[l.id := l] && w'.present == w.present + {l.id} && w'.stream == w.stream + events && w'.replies == w.replies
    requires w'.policies == w.policies && w.present <= w.records.Keys
    ensures Leaves(w, Alone(f, w', Some(CreateReply(a.sub, a.scope, a.from, a.pol, checkedAt, l.id)), xs),
                   Outcome(Table(w)[l.id := l], events, [Reply(rid, a.sub, a.scope, l.id, a.from, a.pol, Newest(w), checkedAt, |w.stream| + 1)]))
  {
    var q := CreateReply(a.sub, a.scope, a.from, a.pol, checkedAt, l.id);
    LastSteps(f, c, rid, w', a, checkedAt, l, xs[0]);
    Returns(f, w', q, xs, f(w', q, xs[0]));
    assert Table(w') == Table(w)[l.id := l] && w'.stream + [] == w'.stream;
  }

  /** The event could not be written; the lease is undone. */
  lemma UndoAlone(f: Stepper, c: Config, w: World, w': World, rid: Rid, a: Ask, checkedAt: int, l: Lease, xs: seq<Input>)
    requires StepsAs(f, c, rid) && xs != [] && Put(w, w', l) && l.id !in w.records
    ensures Leaves(w, Alone(f, w', Some(CreateUndo(l.id)), xs), Outcome(Table(w), [], []))
  {
    LastSteps(f, c, rid, w', a, checkedAt, l, xs[0]);
    var e := f(w', CreateUndo(l.id), xs[0]);
    ReturnsChanged(f, w', CreateUndo(l.id), xs, e);
    PutTable(w, w', l);
    TableAfter(w', xs[0].t2, e);
    assert Table(w)[l.id := l] - {l.id} == Table(w);
  }

  lemma EmitAlone(f: Stepper, c: Config, w: World, w': World, rid: Rid, a: Ask, checkedAt: int, l: Lease, xs: seq<Input>)
    requires StepsAs(f, c, rid) && |xs| >= 2 && Put(w, w', l) && l.id !in w.records
    ensures var o := if xs[0].ok
                     then Outcome(Table(w)[l.id := l], [Issued(rid, a.sub, l.id, a.scope, WholeSeconds(l.expiresAt), PolicyOf(w, a).hash)],
                                  [Reply(rid, a.sub, a.scope, l.id, a.from, a.pol, Newest(w), checkedAt, |w.stream| + 1)])
                     else Outcome(Table(w), [], []);
            Leaves(w, Alone(f, w', Some(CreateEmit(a.sub, a.scope, a.from, a.pol, checkedAt, l.id, WholeSeconds(l.expiresAt))), xs), o)
  {
    var q := CreateEmit(a.sub, a.scope, a.from, a.pol, checkedAt, l.id, WholeSeconds(l.expiresAt));
    LastSteps(f, c, rid, w', a, checkedAt, l, xs[0]);
    var e := f(w', q, xs[0]);
    if xs[0].ok {
      assert w.replies + [] == w.replies;
      ReplyAlone(f, c, w, Apply(w', xs[0].t2, e), rid, a, checkedAt, l, e.events, xs[1..]);
    } else {
      Passes(f, w', q, xs, e);
      UndoAlone(f, c, w, At(w', xs[0].t2), rid, a, checkedAt, l, xs[1..]);
    }
  }

  lemma BuildAlone(f: Stepper, c: Config, w: World, w': World, rid: Rid, a: Ask, checkedAt: int, l: Lease, xs: seq<Input>)
    requires StepsAs(f, c, rid) && |xs| >= 3 && Put(w, w', l) && l.id !in w.records
    ensures var o := if xs[1].ok
                     then Outcome(Table(w)[l.id := l], [Issued(rid, a.sub, l.id, a.scope, WholeSeconds(l.expiresAt), PolicyOf(w, a).hash)],
                                  [Reply(rid, a.sub, a.scope, l.id, a.from, a.pol, Newest(w), checkedAt, |w.stream| + 1)])
                     else Outcome(Table(w), [], []);
            Leaves(w, Alone(f, w', Some(CreateBuild(a.sub, a.scope, a.from, a.pol, checkedAt, l.id)), xs), o)
  {
    var q := CreateBuild(a.sub, a.scope, a.from, a.pol, checkedAt, l.id);
    LastSteps(f, c, rid, w', a, checkedAt, l, xs[0]);
    Passes(f, w', q, xs, f(w', q, xs[0]));
    EmitAlone(f, c, w, At(w', xs[0].t2), rid, a, checkedAt, l, xs[1..]);
  }

  lemma StoreAlone(f: Stepper, c: Config, w: World, rid: Rid, a: Ask, checkedAt: int, g: Grant, ttl: Duration, up: Option<int>, at: int, xs: seq<Input>)
    requires StepsAs(f, c, rid) && |xs| >= 4 && w.present <= w.records.Keys && xs[0].id !in w.records
    ensures Leaves(w, Alone(f, w, Some(CreateStore(a.sub, a.scope, a.from, a.pol, checkedAt, g, ttl, up, at)), xs),
                   LeaseOutcome(w, rid, a, checkedAt, g.renewable, ttl, xs))
  {
    var q := CreateStore(a.sub, a.scope, a.from, a.pol, checkedAt, g, ttl, up, at);
    var l := LeaseStore.Lease(xs[0].id, Key(a.sub), a.scope, xs[0].semantics, xs[0].t, xs[0].t + ttl, g.renewable, false, false);
    StoreStep(f, c, rid, w, a, checkedAt, g, ttl, up, at, xs[0]);
    var w' := Apply(w, xs[0].t2, f(w, q, xs[0]));
    assert w.stream + [] == w.stream && w.replies + [] == w.replies;
    assert Put(w, w', l);
    BuildAlone(f, c, w, w', rid, a, checkedAt, l, xs[1..]);
  }

  lemma FetchAlone(f: Stepper, c: Config, w: World, rid: Rid, a: Ask, checkedAt: int, ttl: Duration, xs: seq<Input>)
    requires StepsAs(f, c, rid) && |xs| >= 5 && w.present <= w.records.Keys && xs[1].id !in w.records
    requires var grant := GrantOf(PolicyOf(w, a), Key(a.sub), a.scope); grant.Some? && ttl == WantedTtl(a.asked, grant.value)
    ensures Leaves(w, Alone(f, w, Some(CreateFetch(a.sub, a.scope, a.from, a.pol, checkedAt, GrantOf(PolicyOf(w, a), Key(a.sub), a.scope).value, ttl)), xs),
                   FetchOutcome(w, rid, a, checkedAt, xs))
  {
    var g, w' := GrantOf(PolicyOf(w, a), Key(a.sub), a.scope).value, At(w, xs[0].t2);
    var q := CreateFetch(a.sub, a.scope, a.from, a.pol, checkedAt, g, ttl);
    FetchStep(f, c, rid, w, a, checkedAt, g, ttl, xs[0]);
    Passes(f, w, q, xs, f(w, q, xs[0]));
    if xs[0].fetch.Fetched? {
      var up := xs[0].fetch.expiresAt;
      var ttl' := ClampUpstream(ttl, up, xs[0].t);
      StoreAlone(f, c, w', rid, a, checkedAt, g, ttl', up, xs[0].t, xs[1..]);
      SameTable(w, w');
      LeavesFrom(w, w', Alone(f, w', Some(CreateStore(a.sub, a.scope, a.from, a.pol, checkedAt, g, ttl', up, xs[0].t)), xs[1..]),
                 LeaseOutcome(w', rid, a, checkedAt, g.renewable, ttl', xs[1..]));
    } else {
      DenyAlone(f, c, w, w', rid, a, xs[1..]);
    }
  }

  lemma CheckAlone(f: Stepper, c: Config, w: World, rid: Rid, a: Ask, xs: seq<Input>)
    requires StepsAs(f, c, rid) && |xs| >= 6 && Orderly(w) && a.pol < |w.policies| && NextIsLeast(c.sched) && IsInt64(a.asked) && xs[2].id !in w.records
    ensures Leaves(w, Alone(f, w, Some(CreateCheck(a.sub, a.scope, a.asked, a.from, a.pol)), xs), CheckOutcome(c, w, rid, a, xs))
  {
    var q, w' := CreateCheck(a.sub, a.scope, a.asked, a.from, a.pol), At(w, xs[0].t2);
    CheckStep(f, c, rid, w, a, xs[0]);
    var e := f(w, q, xs[0]);
    if e == RETURNS {
      Returns(f, w, q, xs, e);
    } else {
      Passes(f, w, q, xs, e);
      if e == Goes(CreateDeny(a.sub, a.pol)) {
        DenyAlone(f, c, w, w', rid, a, xs[1..]);
      } else {
        var g := GrantOf(PolicyOf(w, a), Key(a.sub), a.scope).value;
        var ttl := ClampTtl(a.asked, g).value;
        FetchAlone(f, c, w', rid, a, xs[0].t, ttl, xs[1..]);
        SameTable(w, w');
        LeavesFrom(w, w', Alone(f, w', Some(CreateFetch(a.sub, a.scope, a.from, a.pol, xs[0].t, g, ttl)), xs[1..]), FetchOutcome(w', rid, a, xs[0].t, xs[1..]));
      }
    }
  }

  lemma AdmitAlone(f: Stepper, c: Config, w: World, rid: Rid, a: Ask, xs: seq<Input>)
    requires StepsAs(f, c, rid) && |xs| >= 7 && Orderly(w) && a.pol < |w.policies| && NextIsLeast(c.sched) && IsInt64(a.asked) && xs[3].id !in w.records
    ensures var o := if xs[0].ok then CheckOutcome(c, w, rid, a, xs[1..]) else Outcome(Table(w), ThrottleEvents(w, rid, a.sub, xs[1].ok, xs[2].ok), []);
            Leaves(w, Alone(f, w, Some(CreateAdmit(a.sub, a.scope, a.asked, a.from, a.pol)), xs), o)
  {
    var q, w' := CreateAdmit(a.sub, a.scope, a.asked, a.from, a.pol), At(w, xs[0].t2);
    FirstSteps(f, c, rid, w, a, xs[0]);
    Passes(f, w, q, xs, f(w, q, xs[0]));
    SameTable(w, w');
    if xs[0].ok {
      CheckAlone(f, c, w', rid, a, xs[1..]);
      LeavesFrom(w, w', Alone(f, w', Some(CreateCheck(a.sub, a.scope, a.asked, a.from, a.pol)), xs[1..]), CheckOutcome(c, w', rid, a, xs[1..]));
    } else {
      ThrottledAlone(f, c, w', rid, a.sub, xs[1..]);
      LeavesFrom(w, w', Alone(f, w', Some(Throttled(a.sub)), xs[1..]), Outcome(Table(w), ThrottleEvents(w, rid, a.sub, xs[1].ok, xs[2].ok), []));
    }
  }

  /** POST /v1/leases, run to its end, does what the reference says: exactly a well-formed request for
      a time that is not negative, permitted by the policy in force and served by its provider, makes a
      lease, with the time to live it asked for, and discloses the secret; if the event cannot be
      written nothing remains. */
  lemma CreateAlone(f: Stepper, c: Config, w: World, rid: Rid, sub: Subject, scope: string, asked: int, from: Span, xs: seq<Input>)
    requires StepsAs(f, c, rid) && |xs| >= 8 && Orderly(w) && NextIsLeast(c.sched) && IsInt64(asked) && xs[4].id !in w.records
    ensures Leaves(w, Alone(f, w, Some(CreateBegun(sub, scope, asked, from)), xs), CreateOutcome(c, w, rid, Ask(sub, scope, asked, from, Newest(w)), xs))
  {
    var a, q, w' := Ask(sub, scope, asked, from, Newest(w)), CreateBegun(sub, scope, asked, from), At(w, xs[0].t2);
    FirstSteps(f, c, rid, w, a, xs[0]);
    Passes(f, w, q, xs, f(w, q, xs[0]));
    AdmitAlone(f, c, w', rid, a, xs[1..]);
    assert xs[1..][1..] == xs[2..];
    SameTable(w, w');
    LeavesFrom(w, w', Alone(f, w', Some(CreateAdmit(sub, scope, asked, from, a.pol)), xs[1..]), CreateOutcome(c, w, rid, a, xs));
  }
}
