/** Conflicts do happen: every broker whose startup policy would issue one lease has runs, written
    out here, that write issued surrendered surrendered, issued surrendered renewed, and issued
    surrendered expired for it. */
module BrokerOverlap {
  import opened Base
  import opened Policy
  import opened Broker
  import opened BrokerWords
  import opened BrokerConflicts
  import LeaseStore

  // ----- Reachability -----

  ghost predicate Reaches(c: Config, s: State, s': State) {
    exists steps :: IsRun(c, s, steps) && Run(c, s, steps) == s'
  }

  lemma ReachesFurther(c: Config, s: State, s': State, s'': State)
    requires Reaches(c, s, s') && Reaches(c, s', s'')
    ensures Reaches(c, s, s'')
  {
    var a :| IsRun(c, s, a) && Run(c, s, a) == s';
    var b :| IsRun(c, s', b) && Run(c, s', b) == s'';
    Concat(c, s, a, b);
  }

  lemma OneStep(c: Config, s: State, step: Step)
    requires Possible(c, s, step)
    ensures Reaches(c, s, Next(c, s, step))
  {
    var steps := [step];
    assert steps[1..] == [];
    var s' := Next(c, s, step);
    assert IsRun(c, s', []) && Run(c, s', []) == s';
    assert IsRun(c, s, steps) && Run(c, s, steps) == s';
  }

  lemma OneMoreStep(c: Config, s: State, s': State, step: Step)
    requires Reaches(c, s, s') && Possible(c, s', step)
    ensures Reaches(c, s, Next(c, s', step))
  {
    OneStep(c, s', step);
    ReachesFurther(c, s, s', Next(c, s', step));
  }

  // ----- One create, alone -----

  /** An environment that grants everything, with the clock standing still. */
  function Kind(t: int, id: string): Input {
    Input(t, t, true, false, Fetched(None), id, "static-disclosure", [])
  }

  /** Request 1 is the only one there has been, and is about to take step q. */
  ghost predicate At(s: State, w: World, q: Req) {
    s.w == w && s.inflight == map[1 := q] && s.begun == {1}
  }

  lemma StandsStill(w: World, e: Effect)
    requires e.change == Nothing && e.events == [] && e.replies == []
    ensures Apply(w, w.clock, e) == w
  {
    assert w.stream + e.events == w.stream && w.replies + e.replies == w.replies;
  }

  /** Step q of the create leads to q' and changes nothing else. */
  ghost predicate LeadsTo(c: Config, w: World, q: Req, q': Req, id: string) {
    && IsCreate(q) && !q.CreateStore?
    && var e := CreateStep(c, w, 1, q, Kind(w.clock, id));
       e.next == Some(q') && e.change == Nothing && e.events == [] && e.replies == []
  }

  lemma CheckStep(c: Config, s: State, w: World, q: Req, q': Req, id: string)
    requires At(s, w, q) && LeadsTo(c, w, q, q', id)
    ensures Possible(c, s, Take(1, Kind(w.clock, id))) && At(Next(c, s, Take(1, Kind(w.clock, id))), w, q')
  {
    StandsStill(w, CreateStep(c, w, 1, q, Kind(w.clock, id)));
    assert map[1 := q][1 := q'] == map[1 := q'];
  }

  lemma Advance(c: Config, s: State, s': State, w: World, q: Req, q': Req, id: string) returns (s'': State)
    requires Reaches(c, s, s') && At(s', w, q) && LeadsTo(c, w, q, q', id)
    ensures Reaches(c, s, s'') && At(s'', w, q')
  {
    CheckStep(c, s', w, q, q', id);
    OneMoreStep(c, s, s', Take(1, Kind(w.clock, id)));
    s'' := Next(c, s', Take(1, Kind(w.clock, id)));
  }

  /** The startup policy would issue this lease now. */
  ghost predicate Issues(c: Config, w: World, sub: Subject, scope: string) {
    && w.policies != [] && GrantOf(w.policies[0], Key(sub), scope).Some?
    && WindowOpen(c.sched, GrantOf(w.policies[0], Key(sub), scope).value, w.clock)
  }

  lemma CreateBegins(c: Config, s: State, sub: Subject, scope: string) returns (s': State)
    requires Init(c, s)
    ensures Reaches(c, s, s') && At(s', s.w, CreateBegun(sub, scope, 0, Span(0, s.w.clock)))
  {
    OneStep(c, s, BeginCreate(1, sub, scope, 0));
    s' := Next(c, s, BeginCreate(1, sub, scope, 0));
  }

  lemma EachCheckPasses(c: Config, w: World, sub: Subject, scope: string, id: string)
    requires Issues(c, w, sub, scope) && |w.policies| == 1
    ensures var t := w.clock; var from, g := Span(0, t), GrantOf(w.policies[0], Key(sub), scope).value;
            && LeadsTo(c, w, CreateBegun(sub, scope, 0, from), CreateAdmit(sub, scope, 0, from, 0), id)
            && LeadsTo(c, w, CreateAdmit(sub, scope, 0, from, 0), CreateCheck(sub, scope, 0, from, 0), id)
            && LeadsTo(c, w, CreateCheck(sub, scope, 0, from, 0), CreateFetch(sub, scope, from, 0, t, g, g.ttlDefault), id)
            && LeadsTo(c, w, CreateFetch(sub, scope, from, 0, t, g, g.ttlDefault),
                       CreateStore(sub, scope, from, 0, t, g, g.ttlDefault, None, t), id)
  {
  }

  /** The create handler's checks, up to the store write. */
  lemma ChecksPass(c: Config, s: State, sub: Subject, scope: string, id: string) returns (s': State)
    requires Init(c, s) && Issues(c, s.w, sub, scope)
    ensures Reaches(c, s, s') && s'.w == s.w && s'.begun == {1}
    ensures 1 in s'.inflight && s'.inflight == map[1 := s'.inflight[1]] && s'.inflight[1].CreateStore?
    ensures var q, g := s'.inflight[1], GrantOf(s.w.policies[0], Key(sub), scope).value;
            q.sub == sub && q.scope == scope && q.grant == g && q.ttl == g.ttlDefault && 0 < q.ttl
  {
    var w, t := s.w, s.w.clock;
    var from, g := Span(0, t), GrantOf(w.policies[0], Key(sub), scope).value;
    EachCheckPasses(c, w, sub, scope, id);
    GrantFacts(w.policies[0], c.cronOk, Key(sub), scope);
    s' := CreateBegins(c, s, sub, scope);
    s' := Advance(c, s, s', w, CreateBegun(sub, scope, 0, from), CreateAdmit(sub, scope, 0, from, 0), id);
    s' := Advance(c, s, s', w, CreateAdmit(sub, scope, 0, from, 0), CreateCheck(sub, scope, 0, from, 0), id);
    s' := Advance(c, s, s', w, CreateCheck(sub, scope, 0, from, 0), CreateFetch(sub, scope, from, 0, t, g, g.ttlDefault), id);
    s' := Advance(c, s, s', w, CreateFetch(sub, scope, from, 0, t, g, g.ttlDefault), CreateStore(sub, scope, from, 0, t, g, g.ttlDefault, None, t), id);
  }

  /** The lease, as it was issued, is the only one there is; it is live, and nothing else is going on. */
  ghost predicate Holds(w: World, sub: Subject, scope: string, renewable: bool, id: string) {
    && w.present == {id} && id in w.records
    && var l := w.records[id];
       && l.id == id && l.subjectKey == Key(sub) && l.scope == scope && l.renewable == renewable
       && !l.surrendered && !l.expiredEmit && w.clock <= l.expiresAt
  }

  lemma OnlyLease(w: World, id: string)
    requires w.present == {id} && id in w.records
    ensures Table(w) == map[id := w.records[id]]
  {
  }

  /** A create on its way from the store write to the reply. */
  ghost predicate Telling(s: State, sub: Subject, scope: string, renewable: bool, id: string) {
    && Holds(s.w, sub, scope, renewable, id) && s.inflight.Keys == {1} && s.begun == {1}
    && (s.inflight[1].CreateBuild? || s.inflight[1].CreateEmit? || s.inflight[1].CreateReply?) && s.inflight[1].id == id
    && Word(s.w.stream, id) == if s.inflight[1].CreateReply? then [I] else []
  }

  lemma StoreStep(c: Config, s: State, id: string, q: Req)
    requires s.inflight == map[1 := q] && s.begun == {1} && q.CreateStore? && 0 <= q.ttl
    requires s.w.records == map[] && s.w.present == {} && s.w.stream == []
    ensures var s' := Next(c, s, Take(1, Kind(s.w.clock, id)));
            && Possible(c, s, Take(1, Kind(s.w.clock, id))) && s'.w.clock == s.w.clock && s'.w.policies == s.w.policies
            && Telling(s', q.sub, q.scope, q.grant.renewable, id) && s'.inflight[1].CreateBuild?
  {
    assert s.w.stream + [] == [];
  }

  /** A later step of the create: the table is left alone, and the event is written. */
  lemma TellStep(c: Config, s: State, sub: Subject, scope: string, renewable: bool, id: string)
    requires Telling(s, sub, scope, renewable, id) && !s.inflight[1].CreateReply?
    ensures var q := s.inflight[1]; var s' := Next(c, s, Take(1, Kind(s.w.clock, id)));
            && Possible(c, s, Take(1, Kind(s.w.clock, id))) && s'.w.clock == s.w.clock && s'.w.policies == s.w.policies
            && Telling(s', sub, scope, renewable, id)
            && (q.CreateBuild? ==> s'.inflight[1].CreateEmit?) && (q.CreateEmit? ==> s'.inflight[1].CreateReply?)
  {
    var e := CreateStep(c, s.w, 1, s.inflight[1], Kind(s.w.clock, id));
    WordMore(s.w.stream, e.events, id);
  }

  lemma ReplyStep(c: Config, s: State, sub: Subject, scope: string, renewable: bool, id: string)
    requires Telling(s, sub, scope, renewable, id) && s.inflight[1].CreateReply?
    ensures var s' := Next(c, s, Take(1, Kind(s.w.clock, id)));
            && Possible(c, s, Take(1, Kind(s.w.clock, id))) && s'.w.clock == s.w.clock && s'.w.policies == s.w.policies
            && Idle(s', sub, scope, renewable, id)
  {
    var s' := Next(c, s, Take(1, Kind(s.w.clock, id)));
    assert s.w.stream + [] == s.w.stream;
    assert s'.w.records == s.w.records && s'.w.present == s.w.present && s'.w.stream == s.w.stream;
    assert s'.inflight == s.inflight - {1} && s'.inflight.Keys == {};
  }

  /** The lease has been issued and its event written; request 1 has returned. */
  ghost predicate Idle(s: State, sub: Subject, scope: string, renewable: bool, id: string) {
    Holds(s.w, sub, scope, renewable, id) && s.inflight == map[] && s.begun == {1} && Word(s.w.stream, id) == [I]
  }

  lemma LeaseIsIssued(c: Config, s: State, sub: Subject, scope: string, id: string) returns (s': State)
    requires Init(c, s) && Issues(c, s.w, sub, scope)
    ensures Reaches(c, s, s') && s'.w.policies == s.w.policies
    ensures Idle(s', sub, scope, GrantOf(s.w.policies[0], Key(sub), scope).value.renewable, id)
  {
    var renewable := GrantOf(s.w.policies[0], Key(sub), scope).value.renewable;
    var x := Kind(s.w.clock, id);
    var s1 := ChecksPass(c, s, sub, scope, id);
    StoreStep(c, s1, id, s1.inflight[1]);
    var s2 := Next(c, s1, Take(1, x));
    OneMoreStep(c, s, s1, Take(1, x));
    TellStep(c, s2, sub, scope, renewable, id);
    var s3 := Next(c, s2, Take(1, x));
    OneMoreStep(c, s, s2, Take(1, x));
    TellStep(c, s3, sub, scope, renewable, id);
    var s4 := Next(c, s3, Take(1, x));
    OneMoreStep(c, s, s3, Take(1, x));
    ReplyStep(c, s4, sub, scope, renewable, id);
    s' := Next(c, s4, Take(1, x));
    OneMoreStep(c, s, s4, Take(1, x));
  }

  // ----- A DELETE gets as far as its Get -----

  /** The requests other than rid are where they were. */
  ghost predicate OthersWait(s: State, s': State, rid: Rid) {
    forall r | r != rid && r in s.inflight :: r in s'.inflight && s'.inflight[r] == s.inflight[r]
  }

  /** Request rid has gone on to q, the world and everybody else have not noticed. */
  ghost predicate GoneTo(s: State, s': State, rid: Rid, q: Req) {
    s'.w == s.w && rid in s'.inflight && s'.inflight[rid] == q && OthersWait(s, s', rid) && s'.begun == s.begun + {rid}
  }

  lemma GoneFurther(s: State, s': State, s'': State, rid: Rid, q: Req, q': Req)
    requires GoneTo(s, s', rid, q) && GoneTo(s', s'', rid, q')
    ensures GoneTo(s, s'', rid, q')
  {
    assert s.begun + {rid} + {rid} == s.begun + {rid};
  }

  /** A request starts. */
  lemma Begins(c: Config, s: State, s': State, step: Step)
    requires Reaches(c, s, s') && Possible(c, s', step) && !step.Take? && !step.Reload?
    ensures Reaches(c, s, Next(c, s', step)) && GoneTo(s', Next(c, s', step), step.rid, FirstReq(s'.w, step))
  {
    OneMoreStep(c, s, s', step);
  }

  /** An effect that does nothing but go on to q. */
  predicate PassesTo(e: Effect, q: Req) {
    e.next == Some(q) && e.change == Nothing && e.events == [] && e.replies == []
  }

  /** A request takes a step that only it notices. */
  lemma Passes(c: Config, s: State, s': State, rid: Rid, q: Req, id: string) returns (s'': State)
    requires Reaches(c, s, s') && rid in s'.inflight && rid in s'.begun && !s'.inflight[rid].SweepTable? && !s'.inflight[rid].CreateStore?
    requires PassesTo(EffectOf(c, s'.w, rid, s'.inflight[rid], Kind(s'.w.clock, id)), q)
    ensures Reaches(c, s, s'') && GoneTo(s', s'', rid, q)
  {
    var x := Kind(s'.w.clock, id);
    StandsStill(s'.w, EffectOf(c, s'.w, rid, s'.inflight[rid], x));
    OneMoreStep(c, s, s', Take(rid, x));
    s'' := Next(c, s', Take(rid, x));
    assert s'.begun + {rid} == s'.begun;
  }

  lemma EachDeleteStepPasses(c: Config, w: World, rid: Rid, sub: Subject, scope: string, renewable: bool, id: string)
    requires Holds(w, sub, scope, renewable, id)
    ensures var x := Kind(w.clock, id);
            && PassesTo(EffectOf(c, w, rid, SurrenderAdmit(sub, id), x), SurrenderGet(sub, id))
            && PassesTo(EffectOf(c, w, rid, SurrenderGet(sub, id), x), SurrenderHash(sub, w.records[id]))
  {
    OnlyLease(w, id);
  }

  /** A DELETE starts and reads the live lease. */
  lemma DeleteReads(c: Config, s: State, s': State, rid: Rid, sub: Subject, scope: string, renewable: bool, id: string) returns (s'': State)
    requires Reaches(c, s, s') && rid !in s'.begun && Holds(s'.w, sub, scope, renewable, id)
    ensures Reaches(c, s, s'') && GoneTo(s', s'', rid, SurrenderHash(sub, s'.w.records[id]))
  {
    EachDeleteStepPasses(c, s'.w, rid, sub, scope, renewable, id);
    Begins(c, s, s', BeginSurrender(rid, sub, id));
    var s1 := Next(c, s', BeginSurrender(rid, sub, id));
    var s2 := Passes(c, s, s1, rid, SurrenderGet(sub, id), id);
    GoneFurther(s', s1, s2, rid, SurrenderAdmit(sub, id), SurrenderGet(sub, id));
    s'' := Passes(c, s, s2, rid, SurrenderHash(sub, s'.w.records[id]), id);
    GoneFurther(s', s2, s'', rid, SurrenderGet(sub, id), SurrenderHash(sub, s'.w.records[id]));
  }

  // ----- A renewal gets as far as its store write -----

  /** The newest policy lets sub renew this scope. */
  ghost predicate Renews(w: World, sub: Subject, scope: string) {
    && |w.policies| == 1 && GrantOf(w.policies[0], Key(sub), scope).Some?
    && GrantOf(w.policies[0], Key(sub), scope).value.renewable
  }

  lemma EachReadPasses(c: Config, w: World, rid: Rid, sub: Subject, scope: string, id: string)
    requires Renews(w, sub, scope) && Holds(w, sub, scope, true, id)
    ensures var x, copy, ttl := Kind(w.clock, id), w.records[id], GrantOf(w.policies[0], Key(sub), scope).value.ttlDefault;
            && PassesTo(EffectOf(c, w, rid, RenewAdmit(sub, id, 0), x), RenewGet(sub, id, 0))
            && PassesTo(EffectOf(c, w, rid, RenewGet(sub, id, 0), x), RenewPolicy(sub, 0, copy))
            && PassesTo(EffectOf(c, w, rid, RenewPolicy(sub, 0, copy), x), RenewStore(sub, 0, ttl, copy))
  {
    OnlyLease(w, id);
  }

  /** Request rid has gone on to write for this lease; nothing has been said yet. */
  ghost predicate AboutToSay(s: State, s': State, rid: Rid, voice: Letter, id: string) {
    && s'.w.stream == s.w.stream && rid in s'.inflight && CanSpeak(s'.inflight[rid], id) && Voice(s'.inflight[rid]) == voice
    && OthersWait(s, s', rid)
  }

  lemma RenewStoreStep(c: Config, s: State, rid: Rid, sub: Subject, scope: string, ttl: Duration, id: string)
    requires Holds(s.w, sub, scope, true, id) && rid in s.inflight && s.inflight[rid] == RenewStore(sub, 0, ttl, s.w.records[id])
    ensures var step := Take(rid, Kind(s.w.clock, id)); Possible(c, s, step) && AboutToSay(s, Next(c, s, step), rid, R, id)
  {
    OnlyLease(s.w, id);
    assert s.w.stream + [] == s.w.stream;
  }

  lemma RenewWrites(c: Config, s: State, s': State, rid: Rid, sub: Subject, scope: string, ttl: Duration, id: string) returns (s'': State)
    requires Reaches(c, s, s') && Holds(s'.w, sub, scope, true, id)
    requires rid in s'.inflight && s'.inflight[rid] == RenewStore(sub, 0, ttl, s'.w.records[id])
    ensures Reaches(c, s, s'') && AboutToSay(s', s'', rid, R, id)
  {
    RenewStoreStep(c, s', rid, sub, scope, ttl, id);
    OneMoreStep(c, s, s', Take(rid, Kind(s'.w.clock, id)));
    s'' := Next(c, s', Take(rid, Kind(s'.w.clock, id)));
  }

  /** A renewal starts and gets as far as the store write. */
  lemma RenewReads(c: Config, s: State, s': State, rid: Rid, sub: Subject, scope: string, id: string) returns (s'': State)
    requires Reaches(c, s, s') && rid !in s'.begun && Renews(s'.w, sub, scope) && Holds(s'.w, sub, scope, true, id)
    ensures Reaches(c, s, s'')
    ensures GoneTo(s', s'', rid, RenewStore(sub, 0, GrantOf(s'.w.policies[0], Key(sub), scope).value.ttlDefault, s'.w.records[id]))
  {
    var copy, ttl := s'.w.records[id], GrantOf(s'.w.policies[0], Key(sub), scope).value.ttlDefault;
    EachReadPasses(c, s'.w, rid, sub, scope, id);
    Begins(c, s, s', BeginRenew(rid, sub, id, 0));
    var s1 := Next(c, s', BeginRenew(rid, sub, id, 0));
    var s2 := Passes(c, s, s1, rid, RenewGet(sub, id, 0), id);
    GoneFurther(s', s1, s2, rid, RenewAdmit(sub, id, 0), RenewGet(sub, id, 0));
    var s3 := Passes(c, s, s2, rid, RenewPolicy(sub, 0, copy), id);
    GoneFurther(s', s2, s3, rid, RenewGet(sub, id, 0), RenewPolicy(sub, 0, copy));
    s'' := Passes(c, s, s3, rid, RenewStore(sub, 0, ttl, copy), id);
    GoneFurther(s', s3, s'', rid, RenewPolicy(sub, 0, copy), RenewStore(sub, 0, ttl, copy));
  }

  // ----- A sweep gets as far as its table step -----

  /** The clock has passed the expiry, and the sweep finds just this lease. */
  function Late(l: Lease): Input {
    Input(l.expiresAt + 1, l.expiresAt + 1, true, false, NoProvider, "", "", [l.(expiredEmit := true)])
  }

  lemma LateSweep(l: Lease, id: string)
    requires l.id == id && !l.surrendered && !l.expiredEmit
    ensures LeaseStore.SweepReturns(map[id := l], l.expiresAt + 1, Late(l).out)
  {
    assert Late(l).out[0].id == id;
  }

  lemma SweepTableStep(c: Config, s: State, rid: Rid, sub: Subject, scope: string, renewable: bool, id: string)
    requires rid in s.inflight && s.inflight[rid].SweepTable? && Holds(s.w, sub, scope, renewable, id)
    ensures var step := Take(rid, Late(s.w.records[id])); Possible(c, s, step) && AboutToSay(s, Next(c, s, step), rid, E, id)
  {
    OnlyLease(s.w, id);
    LateSweep(s.w.records[id], id);
    var x, s' := Late(s.w.records[id]), Next(c, s, Take(rid, Late(s.w.records[id])));
    assert s'.inflight == s.inflight[rid := SweepEmit(x.out, s.inflight[rid].pol)] && s'.w.stream == s.w.stream + [];
    assert s.w.stream + [] == s.w.stream && x.out[0].id == id;
  }

  lemma SweepTakes(c: Config, s: State, s': State, rid: Rid, sub: Subject, scope: string, renewable: bool, id: string) returns (s'': State)
    requires Reaches(c, s, s') && rid in s'.inflight && s'.inflight[rid].SweepTable? && Holds(s'.w, sub, scope, renewable, id)
    ensures Reaches(c, s, s'') && AboutToSay(s', s'', rid, E, id)
  {
    var x := Late(s'.w.records[id]);
    SweepTableStep(c, s', rid, sub, scope, renewable, id);
    OneMoreStep(c, s, s', Take(rid, x));
    s'' := Next(c, s', Take(rid, x));
  }

  lemma SweepBegins(c: Config, s: State, s': State, rid: Rid, id: string) returns (s'': State)
    requires Reaches(c, s, s') && rid !in s'.begun
    ensures Reaches(c, s, s'') && GoneTo(s', s'', rid, SweepTable(0, Newest(s'.w)))
  {
    Begins(c, s, s', BeginSweep(rid, 0));
    var s1 := Next(c, s', BeginSweep(rid, 0));
    s'' := Passes(c, s, s1, rid, SweepTable(0, Newest(s'.w)), id);
    GoneFurther(s', s1, s'', rid, SweepBegun(0), SweepTable(0, Newest(s'.w)));
  }

  // ----- Three ways to break the order -----

  lemma ContinuesReaches(c: Config, s: State, s': State, s'': State, a: Rid, b: Rid)
    requires Reaches(c, s, s') && Continues(c, s', s'', a, b)
    ensures Reaches(c, s, s'')
  {
    var p :| IsRun(c, s', p) && Run(c, s', p) == s'' && TakesOf(p, a, b);
    assert Reaches(c, s', s'');
    ReachesFurther(c, s, s', s'');
  }

  /** The lease has just been issued, a DELETE of it is past its Get, and so is request 3 as far as
      its own event. */
  ghost predicate Meet(s: State, voice: Letter, id: string) {
    && Word(s.w.stream, id) == [I] && 2 in s.inflight && s.inflight[2].SurrenderHash? && s.inflight[2].copy.id == id
    && 3 in s.inflight && CanSpeak(s.inflight[3], id) && Voice(s.inflight[3]) == voice
  }

  lemma Said(c: Config, s: State, s': State, a: Rid, id: string) returns (s'': State)
    requires Reaches(c, s, s') && a in s'.inflight && CanSpeak(s'.inflight[a], id)
    ensures Reaches(c, s, s'') && Word(s''.w.stream, id) == Word(s'.w.stream, id) + [Voice(s'.inflight[a])] && OthersWait(s', s'', a)
  {
    s'' := Speak(c, s', a, a, id);
    ContinuesReaches(c, s, s', s'', a, a);
  }

  /** The DELETE of request 2 writes its event, then request 3 writes its own. */
  lemma BothSpeak(c: Config, s: State, s': State, voice: Letter, id: string) returns (s'': State)
    requires Reaches(c, s, s') && Meet(s', voice, id)
    ensures Reaches(c, s, s'') && Word(s''.w.stream, id) == [I, S, voice]
  {
    var s1 := Said(c, s, s', 2, id);
    s'' := Said(c, s, s1, 3, id);
    assert [I] + [S] + [voice] == [I, S, voice];
  }

  /** The lease is issued, and a DELETE of it is past its Get. */
  ghost predicate Deleting(s: State, sub: Subject, scope: string, renewable: bool, id: string) {
    && Word(s.w.stream, id) == [I] && s.begun == {1, 2} && Holds(s.w, sub, scope, renewable, id)
    && 2 in s.inflight && s.inflight[2] == SurrenderHash(sub, s.w.records[id])
  }

  lemma DeleteUnderWay(c: Config, s: State, sub: Subject, scope: string, id: string) returns (s': State)
    requires Init(c, s) && Issues(c, s.w, sub, scope)
    ensures Reaches(c, s, s') && s'.w.policies == s.w.policies
    ensures Deleting(s', sub, scope, GrantOf(s.w.policies[0], Key(sub), scope).value.renewable, id)
  {
    var s1 := LeaseIsIssued(c, s, sub, scope, id);
    s' := DeleteReads(c, s, s1, 2, sub, scope, GrantOf(s.w.policies[0], Key(sub), scope).value.renewable, id);
  }

  lemma DeleteMeets(c: Config, s: State, s': State, sub: Subject, scope: string, renewable: bool, id: string) returns (s'': State)
    requires Reaches(c, s, s') && Deleting(s', sub, scope, renewable, id)
    ensures Reaches(c, s, s'') && Meet(s'', S, id)
  {
    s'' := DeleteReads(c, s, s', 3, sub, scope, renewable, id);
  }

  lemma RenewalMeets(c: Config, s: State, s': State, sub: Subject, scope: string, id: string) returns (s'': State)
    requires Reaches(c, s, s') && Deleting(s', sub, scope, true, id) && Renews(s'.w, sub, scope)
    ensures Reaches(c, s, s'') && Meet(s'', R, id)
  {
    var s1 := RenewReads(c, s, s', 3, sub, scope, id);
    s'' := RenewWrites(c, s, s1, 3, sub, scope, GrantOf(s'.w.policies[0], Key(sub), scope).value.ttlDefault, id);
  }

  lemma SweepMeets(c: Config, s: State, s': State, sub: Subject, scope: string, renewable: bool, id: string) returns (s'': State)
    requires Reaches(c, s, s') && Deleting(s', sub, scope, renewable, id)
    ensures Reaches(c, s, s'') && Meet(s'', E, id)
  {
    var s1 := SweepBegins(c, s, s', 3, id);
    s'' := SweepTakes(c, s, s1, 3, sub, scope, renewable, id);
  }

  /** From startup, under any policy that would issue some lease: two overlapping DELETEs write
      issued surrendered surrendered. */
  lemma DeletesOverlap(c: Config, s: State, sub: Subject, scope: string, id: string) returns (s': State)
    requires Init(c, s) && Issues(c, s.w, sub, scope)
    ensures Reaches(c, s, s') && Word(s'.w.stream, id) == [I, S, S]
  {
    var s1 := DeleteUnderWay(c, s, sub, scope, id);
    var s2 := DeleteMeets(c, s, s1, sub, scope, GrantOf(s.w.policies[0], Key(sub), scope).value.renewable, id);
    s' := BothSpeak(c, s, s2, S, id);
  }

  /** ... if the lease is renewable, a renewal that overlaps a DELETE writes issued surrendered renewed. */
  lemma RenewalOverlapsDelete(c: Config, s: State, sub: Subject, scope: string, id: string) returns (s': State)
    requires Init(c, s) && Issues(c, s.w, sub, scope) && Renews(s.w, sub, scope)
    ensures Reaches(c, s, s') && Word(s'.w.stream, id) == [I, S, R]
  {
    var s1 := DeleteUnderWay(c, s, sub, scope, id);
    var s2 := RenewalMeets(c, s, s1, sub, scope, id);
    s' := BothSpeak(c, s, s2, R, id);
  }

  /** ... and a sweep that overlaps a DELETE writes issued surrendered expired. */
  lemma SweepOverlapsDelete(c: Config, s: State, sub: Subject, scope: string, id: string) returns (s': State)
    requires Init(c, s) && Issues(c, s.w, sub, scope)
    ensures Reaches(c, s, s') && Word(s'.w.stream, id) == [I, S, E]
  {
    var s1 := DeleteUnderWay(c, s, sub, scope, id);
    var s2 := SweepMeets(c, s, s1, sub, scope, GrantOf(s.w.policies[0], Key(sub), scope).value.renewable, id);
    s' := BothSpeak(c, s, s2, E, id);
  }

  /** None of the three is a life of the lease. */
  lemma OverlapBreaksTheOrder(c: Config, s: State, sub: Subject, scope: string, id: string)
    requires Init(c, s) && Issues(c, s.w, sub, scope)
    ensures exists s' :: Reaches(c, s, s') && !IsLifecycle(Word(s'.w.stream, id))
    ensures !IsLifecycle([I, S, S]) && !IsLifecycle([I, S, R]) && !IsLifecycle([I, S, E])
  {
    forall l: Letter ensures !IsLifecycle([I, S, l]) {
      assert [I, S] + [l] == [I, S, l] && S in [I, S];
      if IsLifecycle([I, S, l]) {
        LastLetter([I, S], l);
      }
    }
    var s' := DeletesOverlap(c, s, sub, scope, id);
  }
}
