/** What every step of the lease protocol keeps: who was granted what under which policy, what the
    records, events and replies say about each other, and how long a lease may live. */
module BrokerFacts {
  import opened Base
  import opened Policy
  import opened Broker
  import LeaseStore

  // ----- The machine's table is the store's table -----

  lemma TableAfter(w: World, clock: int, e: Effect)
    requires w.present <= w.records.Keys
    ensures var t, t' := Table(w), Table(Apply(w, clock, e));
            match e.change
            case Nothing => t' == t
            case Puts(l, _) => t' == t[l.id := l]
            case Removes(id) => t' == t - {id}
            case Marks(id) => t' == LeaseStore.AfterSurrender(t, id)
            case Sweeps(now, retain) => t' == LeaseStore.AfterSweep(t, now, retain)
  {
  }

  /** What the store's own operations make of the table, step by step: Create, Renew with its two
      clock readings, Surrender, Remove and SweepExpired, and nothing by any other step. */
  function StoreDoes(t: LeaseStore.Table, q: Req, x: Input): LeaseStore.Table {
    match q
    case CreateStore(sub, scope, _, _, _, grant, ttl, _, _) =>
      t[x.id := LeaseStore.NewLease(x.id, Key(sub), scope, x.semantics, ttl, grant.renewable, x.t)]
    case CreateUndo(id) => t - {id}
    case RenewStore(_, _, ttl, copy) => LeaseStore.AfterRenew(t, copy.id, x.t, ttl, x.t2)
    case RenewKill(id) => LeaseStore.AfterSurrender(t, id)
    case SurrenderMark(id) => LeaseStore.AfterSurrender(t, id)
    case SweepTable(retain, _) => LeaseStore.AfterSweep(t, x.t, retain)
    case _ => t
  }

  lemma CreateFollowsStore(c: Config, w: World, rid: Rid, q: Req, x: Input)
    requires w.present <= w.records.Keys && IsCreate(q)
    ensures Table(Apply(w, x.t2, CreateStep(c, w, rid, q, x))) == StoreDoes(Table(w), q, x)
  {
    TableAfter(w, x.t2, CreateStep(c, w, rid, q, x));
  }

  lemma RenewFollowsStore(w: World, rid: Rid, q: Req, x: Input)
    requires w.present <= w.records.Keys && IsRenew(q) && forall id | id in w.records :: w.records[id].id == id
    ensures Table(Apply(w, x.t2, RenewStep(w, rid, q, x))) == StoreDoes(Table(w), q, x)
  {
    TableAfter(w, x.t2, RenewStep(w, rid, q, x));
  }

  lemma OtherFollowsStore(c: Config, w: World, rid: Rid, q: Req, x: Input)
    requires w.present <= w.records.Keys && !IsCreate(q) && !IsRenew(q)
    ensures Table(Apply(w, x.t2, EffectOf(c, w, rid, q, x))) == StoreDoes(Table(w), q, x)
  {
    TableAfter(w, x.t2, EffectOf(c, w, rid, q, x));
  }

  /** Every step of every handler changes the table as the store's own operation does. */
  lemma TableFollowsStore(c: Config, w: World, rid: Rid, q: Req, x: Input)
    requires w.present <= w.records.Keys && forall id | id in w.records :: w.records[id].id == id
    ensures Table(Apply(w, x.t2, EffectOf(c, w, rid, q, x))) == StoreDoes(Table(w), q, x)
  {
    if IsCreate(q) {
      CreateFollowsStore(c, w, rid, q, x);
    } else if IsRenew(q) {
      RenewFollowsStore(w, rid, q, x);
    } else {
      OtherFollowsStore(c, w, rid, q, x);
    }
  }

  // ----- Facts about one request, event, record, reply -----

  /** Policy pol, in force since the request began, grants scope to sub, and the window was open. */
  ghost predicate Authorised(c: Config, w: World, sub: Subject, scope: string, from: Span, pol: nat, checkedAt: int) {
    && from.pol <= pol < |w.policies| && from.clock <= checkedAt <= w.clock
    && GrantOf(w.policies[pol], Key(sub), scope).Some?
    && WindowOpen(c.sched, GrantOf(w.policies[pol], Key(sub), scope).value, checkedAt)
  }

  ghost predicate WithinGrant(w: World, sub: Subject, scope: string, pol: nat, ttl: int) {
    && pol < |w.policies| && GrantOf(w.policies[pol], Key(sub), scope).Some?
    && 0 <= ttl <= GrantOf(w.policies[pol], Key(sub), scope).value.ttlMax
  }

  ghost predicate RecordIs(w: World, id: string, sub: Subject, scope: string) {
    id in w.records && w.records[id].subjectKey == Key(sub) && w.records[id].scope == scope
  }

  /** A lease.issued event with these facts stands among the first upto events. */
  ghost predicate WasIssued(w: World, upto: nat, rid: Rid, sub: Subject, id: string, scope: string, pol: nat) {
    upto <= |w.stream| && pol < |w.policies| && exists n :: 0 <= n < upto && IssuedBy(w.stream[n], rid, sub, id, scope, w.policies[pol].hash)
  }

  ghost predicate IssuedBy(e: Event, rid: Rid, sub: Subject, id: string, scope: string, hash: string) {
    e.Issued? && e.rid == rid && e.sub == sub && e.id == id && e.scope == scope && e.hash == hash
  }

  ghost predicate ClampedTo(ttl: int, upstream: Option<int>, clampedAt: int) {
    upstream.Some? && upstream.value > clampedAt ==> ttl <= upstream.value - clampedAt
  }

  ghost predicate SameLease(w: World, l: Lease) {
    l.id in w.records && l.subjectKey == w.records[l.id].subjectKey && l.scope == w.records[l.id].scope
  }

  ghost predicate ReqOk(c: Config, w: World, rid: Rid, q: Req) {
    match q
    case CreateBegun(_, _, asked, from) => from.pol < |w.policies| && from.clock <= w.clock && IsInt64(asked)
    case CreateAdmit(_, _, asked, from, pol) => from.pol <= pol < |w.policies| && from.clock <= w.clock && IsInt64(asked)
    case CreateCheck(_, _, asked, from, pol) => from.pol <= pol < |w.policies| && from.clock <= w.clock && IsInt64(asked)
    case CreateFetch(sub, scope, from, pol, checkedAt, grant, ttl) =>
      && Authorised(c, w, sub, scope, from, pol, checkedAt) && WithinGrant(w, sub, scope, pol, ttl)
      && grant == GrantOf(w.policies[pol], Key(sub), scope).value
    case CreateStore(sub, scope, from, pol, checkedAt, grant, ttl, upstream, clampedAt) =>
      && Authorised(c, w, sub, scope, from, pol, checkedAt) && WithinGrant(w, sub, scope, pol, ttl)
      && grant == GrantOf(w.policies[pol], Key(sub), scope).value
      && clampedAt <= w.clock && ClampedTo(ttl, upstream, clampedAt)
    case CreateBuild(sub, scope, from, pol, checkedAt, id) =>
      Authorised(c, w, sub, scope, from, pol, checkedAt) && RecordIs(w, id, sub, scope)
    case CreateEmit(sub, scope, from, pol, checkedAt, id, _) =>
      Authorised(c, w, sub, scope, from, pol, checkedAt) && RecordIs(w, id, sub, scope)
    case CreateReply(sub, scope, from, pol, checkedAt, id) =>
      && Authorised(c, w, sub, scope, from, pol, checkedAt) && RecordIs(w, id, sub, scope)
      && WasIssued(w, |w.stream|, rid, sub, id, scope, pol)
    case RenewAdmit(_, _, asked) => IsInt64(asked)
    case RenewGet(_, _, asked) => IsInt64(asked)
    case RenewPolicy(sub, asked, copy) => IsInt64(asked) && RecordIs(w, copy.id, sub, copy.scope)
    case RenewStore(sub, pol, ttl, copy) => RecordIs(w, copy.id, sub, copy.scope) && WithinGrant(w, sub, copy.scope, pol, ttl)
    case RenewEmit(sub, _, copy) => RecordIs(w, copy.id, sub, copy.scope)
    case SurrenderHash(sub, copy) => RecordIs(w, copy.id, sub, copy.scope)
    case SurrenderEmit(sub, _, copy) => RecordIs(w, copy.id, sub, copy.scope)
    case SweepEmit(left, _) => forall i | 0 <= i < |left| :: SameLease(w, left[i])
    case _ => true
  }

  /** A lease event names the subject and the scope of the lease's record. */
  ghost predicate EventOk(w: World, e: Event) {
    IsLeaseEvent(e) ==>
      && e.id in w.records && e.scope == w.records[e.id].scope
      && if e.Expired? then e.sub == SubjectOfKey(w.records[e.id].subjectKey) else Key(e.sub) == w.records[e.id].subjectKey
  }

  /** A write was granted, and the expiry it set lies within the grant's ttlMax of it. */
  ghost predicate WriteOk(w: World, l: Lease, wr: Write) {
    && wr.pol < |w.policies| && wr.at <= w.clock
    && GrantOf(w.policies[wr.pol], l.subjectKey, l.scope).Some?
    && wr.at <= l.expiresAt <= wr.at + GrantOf(w.policies[wr.pol], l.subjectKey, l.scope).value.ttlMax
    && (wr.issued ==> wr.clampedAt <= wr.at && ClampedTo(l.expiresAt - wr.at, wr.upstream, wr.clampedAt))
  }

  ghost predicate RecordOk(w: World, id: string)
    requires id in w.records
  {
    && w.records[id].id == id && IsSubjectKey(w.records[id].subjectKey)
    && id in w.writes && WriteOk(w, w.records[id], w.writes[id])
  }

  ghost predicate ReplyOk(c: Config, w: World, r: Reply) {
    && Authorised(c, w, r.sub, r.scope, r.from, r.pol, r.checkedAt) && r.pol <= r.to < |w.policies|
    && WasIssued(w, r.at, r.rid, r.sub, r.id, r.scope, r.pol)
  }

  /** What validation guarantees of every grant that can be looked up. */
  ghost predicate GrantsSane(w: World) {
    forall k, key, scope | 0 <= k < |w.policies| && GrantOf(w.policies[k], key, scope).Some? ::
      IsSubjectKey(key) && 0 < GrantOf(w.policies[k], key, scope).value.ttlDefault <= GrantOf(w.policies[k], key, scope).value.ttlMax
  }

  ghost predicate WorldOk(c: Config, w: World) {
    && w.policies != [] && w.present <= w.records.Keys
    && (forall n | 0 <= n < |w.stream| :: EventOk(w, w.stream[n]))
    && (forall id | id in w.records :: RecordOk(w, id))
    && (forall n | 0 <= n < |w.replies| :: ReplyOk(c, w, w.replies[n]))
  }

  // ----- They survive whatever else happens -----

  /** Policies and events are only added, and a record's identity never changes. */
  ghost predicate Grows(w: World, w': World) {
    && w.clock <= w'.clock && w.policies <= w'.policies && w.stream <= w'.stream
    && forall id | id in w.records ::
         id in w'.records && w'.records[id].subjectKey == w.records[id].subjectKey && w'.records[id].scope == w.records[id].scope
  }

  lemma IssuedStable(w: World, w': World, upto: nat, rid: Rid, sub: Subject, id: string, scope: string, pol: nat)
    requires WasIssued(w, upto, rid, sub, id, scope, pol) && Grows(w, w')
    ensures forall upto' | upto <= upto' <= |w'.stream| :: WasIssued(w', upto', rid, sub, id, scope, pol)
  {
    var n :| 0 <= n < upto && IssuedBy(w.stream[n], rid, sub, id, scope, w.policies[pol].hash);
    assert w'.stream[n] == w.stream[n] && w'.policies[pol] == w.policies[pol];
  }

  lemma ReqStable(c: Config, w: World, w': World, rid: Rid, q: Req)
    requires ReqOk(c, w, rid, q) && Grows(w, w')
    ensures ReqOk(c, w', rid, q)
  {
    if q.CreateReply? {
      IssuedStable(w, w', |w.stream|, rid, q.sub, q.id, q.scope, q.pol);
    }
  }

  lemma ReplyStable(c: Config, w: World, w': World, r: Reply)
    requires ReplyOk(c, w, r) && Grows(w, w')
    ensures ReplyOk(c, w', r)
  {
    IssuedStable(w, w', r.at, r.rid, r.sub, r.id, r.scope, r.pol);
  }

  /** A lease that is put into the table is the old one with a new expiry, or new altogether. */
  ghost predicate PutOk(w: World, w': World, l: Lease, wr: Write) {
    && WriteOk(w', l, wr) && IsSubjectKey(l.subjectKey)
    && (l.id in w.records ==> l.subjectKey == w.records[l.id].subjectKey && l.scope == w.records[l.id].scope)
  }

  /** A change leaves every record's identity, and its expiry unless it is the lease put. */
  lemma RecordsKept(w: World, ch: Change, id: string)
    requires id in w.records && w.present <= w.records.Keys
    ensures id in RecordsAfter(w, ch)
    ensures !(ch.Puts? && ch.lease.id == id) ==>
              var l, l' := w.records[id], RecordsAfter(w, ch)[id];
              l'.id == l.id && l'.subjectKey == l.subjectKey && l'.scope == l.scope && l'.expiresAt == l.expiresAt
  {
    if ch.Marks? && id == ch.id && id in w.present {
      assert Table(w)[id] == w.records[id];
    }
  }

  lemma KeysKept(w: World, ch: Change)
    requires w.present <= w.records.Keys
    ensures RecordsAfter(w, ch).Keys == w.records.Keys + if ch.Puts? then {ch.lease.id} else {}
    ensures PresentAfter(w, ch) <= RecordsAfter(w, ch).Keys
  {
  }

  lemma ApplyGrows(w: World, clock: int, e: Effect)
    requires w.present <= w.records.Keys && w.clock <= clock
    requires e.change.Puts? ==> PutOk(w, Apply(w, clock, e), e.change.lease, e.change.write)
    ensures Grows(w, Apply(w, clock, e)) && Apply(w, clock, e).present <= Apply(w, clock, e).records.Keys
  {
    KeysKept(w, e.change);
    forall id | id in w.records
      ensures id in RecordsAfter(w, e.change)
      ensures RecordsAfter(w, e.change)[id].subjectKey == w.records[id].subjectKey
      ensures RecordsAfter(w, e.change)[id].scope == w.records[id].scope
    {
      RecordsKept(w, e.change, id);
    }
  }

  lemma ApplyKeepsRecord(w: World, clock: int, e: Effect, id: string)
    requires w.present <= w.records.Keys && w.clock <= clock
    requires e.change.Puts? ==> PutOk(w, Apply(w, clock, e), e.change.lease, e.change.write)
    requires id in w.records ==> RecordOk(w, id)
    requires id in Apply(w, clock, e).records
    ensures RecordOk(Apply(w, clock, e), id)
  {
    KeysKept(w, e.change);
    if !(e.change.Puts? && e.change.lease.id == id) {
      RecordsKept(w, e.change, id);
    }
  }

  /** What an effect must satisfy for the facts to survive it. */
  ghost predicate EffectOk(c: Config, w: World, w': World, rid: Rid, e: Effect) {
    && (e.next.Some? ==> ReqOk(c, w', rid, e.next.value))
    && (e.change.Puts? ==> PutOk(w, w', e.change.lease, e.change.write))
    && (forall i | 0 <= i < |e.events| :: EventOk(w, e.events[i]))
    && (forall i | 0 <= i < |e.replies| :: ReplyOk(c, w, e.replies[i]))
  }

  lemma ApplyKeepsWorld(c: Config, w: World, clock: int, rid: Rid, e: Effect)
    requires WorldOk(c, w) && w.clock <= clock && EffectOk(c, w, Apply(w, clock, e), rid, e)
    ensures WorldOk(c, Apply(w, clock, e))
  {
    var w' := Apply(w, clock, e);
    ApplyGrows(w, clock, e);
    forall id | id in w'.records ensures RecordOk(w', id) {
      ApplyKeepsRecord(w, clock, e, id);
    }
    forall n | 0 <= n < |w'.stream| ensures EventOk(w', w'.stream[n]) {
      assert EventOk(w, w'.stream[n]);
    }
    forall n | 0 <= n < |w'.replies| ensures ReplyOk(c, w', w'.replies[n]) {
      assert ReplyOk(c, w, w'.replies[n]);
      ReplyStable(c, w, w', w'.replies[n]);
    }
  }

  // ----- Every step's effect satisfies it -----

  lemma CreateReadsOk(c: Config, w: World, rid: Rid, q: Req, x: Input)
    requires w.policies != [] && InputOk(w, q, x) && ReqOk(c, w, rid, q)
    requires q.CreateBegun? || q.CreateAdmit? || q.CreateDeny? || q.CreateFetch?
    ensures var e := CreateStep(c, w, rid, q, x); EffectOk(c, w, Apply(w, x.t2, e), rid, e)
  {
  }

  lemma CreateChecksOk(c: Config, w: World, rid: Rid, q: Req, x: Input)
    requires GrantsSane(w) && w.policies != [] && InputOk(w, q, x) && ReqOk(c, w, rid, q) && q.CreateCheck?
    ensures var e := CreateStep(c, w, rid, q, x); EffectOk(c, w, Apply(w, x.t2, e), rid, e)
  {
    var grant := GrantOf(w.policies[q.pol], Key(q.sub), q.scope);
    if grant.Some? {
      ClampTtlExact(q.asked, grant.value);
    }
  }

  lemma CreateLeaseOk(c: Config, w: World, rid: Rid, q: Req, x: Input)
    requires GrantsSane(w) && InputOk(w, q, x) && ReqOk(c, w, rid, q)
    requires q.CreateStore? || q.CreateBuild? || q.CreateUndo?
    ensures var e := CreateStep(c, w, rid, q, x); EffectOk(c, w, Apply(w, x.t2, e), rid, e)
  {
    var e := CreateStep(c, w, rid, q, x);
    var w' := Apply(w, x.t2, e);
    assert w'.policies == w.policies && w'.clock == x.t2;
    if q.CreateStore? {
      assert w'.records[x.id] == e.change.lease;
      assert WriteOk(w', e.change.lease, e.change.write);
    }
  }

  lemma CreateTellsOk(c: Config, w: World, rid: Rid, q: Req, x: Input)
    requires w.policies != [] && InputOk(w, q, x) && ReqOk(c, w, rid, q) && (q.CreateEmit? || q.CreateReply?)
    ensures var e := CreateStep(c, w, rid, q, x); EffectOk(c, w, Apply(w, x.t2, e), rid, e)
  {
    var e := CreateStep(c, w, rid, q, x);
    var w' := Apply(w, x.t2, e);
    assert w'.policies == w.policies && w'.clock == x.t2 && w'.records == w.records;
    if q.CreateEmit? && x.ok {
      assert w'.stream[|w.stream|] == e.events[0];
      assert IssuedBy(w'.stream[|w.stream|], rid, q.sub, q.id, q.scope, w'.policies[q.pol].hash);
    }
  }

  lemma RenewReadsOk(c: Config, w: World, rid: Rid, q: Req, x: Input)
    requires GrantsSane(w) && w.policies != [] && InputOk(w, q, x) && ReqOk(c, w, rid, q)
    requires forall id | id in w.records :: w.records[id].id == id
    requires q.RenewAdmit? || q.RenewGet? || q.RenewPolicy?
    ensures var e := RenewStep(w, rid, q, x); EffectOk(c, w, Apply(w, x.t2, e), rid, e)
  {
    if q.RenewPolicy? {
      var grant := GrantOf(w.policies[Newest(w)], Key(q.sub), q.copy.scope);
      if grant.Some? {
        ClampTtlExact(q.asked, grant.value);
      }
    }
  }

  lemma RenewWritesOk(c: Config, w: World, rid: Rid, q: Req, x: Input)
    requires w.policies != [] && InputOk(w, q, x) && ReqOk(c, w, rid, q)
    requires q.RenewStore? || q.RenewEmit? || q.RenewKill?
    requires q.RenewStore? ==> RecordOk(w, q.copy.id)
    ensures var e := RenewStep(w, rid, q, x); EffectOk(c, w, Apply(w, x.t2, e), rid, e)
  {
    var e := RenewStep(w, rid, q, x);
    if q.RenewStore? && e.next.Some? {
      assert e.change.lease == w.records[q.copy.id].(expiresAt := x.t2 + q.ttl);
    }
  }

  lemma SurrenderStepOk(c: Config, w: World, rid: Rid, q: Req, x: Input)
    requires InputOk(w, q, x) && ReqOk(c, w, rid, q) && IsSurrender(q)
    requires forall id | id in w.records :: w.records[id].id == id
    ensures var e := SurrenderStep(w, rid, q, x); EffectOk(c, w, Apply(w, x.t2, e), rid, e)
  {
  }

  lemma SweepStepOk(c: Config, w: World, rid: Rid, q: Req, x: Input)
    requires w.present <= w.records.Keys && InputOk(w, q, x) && ReqOk(c, w, rid, q) && IsSweep(q)
    ensures var e := SweepStep(w, rid, q, x); EffectOk(c, w, Apply(w, x.t2, e), rid, e)
  {
    if q.SweepTable? {
      var e := SweepStep(w, rid, q, x);
      var w' := Apply(w, x.t2, e);
      forall i | 0 <= i < |x.out| ensures SameLease(w', x.out[i]) {
        assert x.out[i].id in Table(w);
        RecordsKept(w, e.change, x.out[i].id);
      }
    }
  }

  lemma FrontStepOk(c: Config, w: World, rid: Rid, q: Req, x: Input)
    requires IsFront(q)
    ensures var e := FrontStep(c, w, rid, q, x); EffectOk(c, w, Apply(w, x.t2, e), rid, e)
  {
  }

  lemma CreateStepOk(c: Config, w: World, rid: Rid, q: Req, x: Input)
    requires GrantsSane(w) && w.policies != [] && InputOk(w, q, x) && ReqOk(c, w, rid, q) && IsCreate(q)
    ensures var e := CreateStep(c, w, rid, q, x); EffectOk(c, w, Apply(w, x.t2, e), rid, e)
  {
    if q.CreateStore? || q.CreateBuild? || q.CreateUndo? {
      CreateLeaseOk(c, w, rid, q, x);
    } else if q.CreateEmit? || q.CreateReply? {
      CreateTellsOk(c, w, rid, q, x);
    } else if q.CreateCheck? {
      CreateChecksOk(c, w, rid, q, x);
    } else {
      CreateReadsOk(c, w, rid, q, x);
    }
  }

  lemma StepOk(c: Config, w: World, rid: Rid, q: Req, x: Input)
    requires GrantsSane(w) && WorldOk(c, w) && InputOk(w, q, x) && ReqOk(c, w, rid, q)
    ensures var e := EffectOf(c, w, rid, q, x); EffectOk(c, w, Apply(w, x.t2, e), rid, e)
  {
    assert forall id | id in w.records :: RecordOk(w, id);
    if IsCreate(q) {
      CreateStepOk(c, w, rid, q, x);
    } else if q.RenewAdmit? || q.RenewGet? || q.RenewPolicy? {
      RenewReadsOk(c, w, rid, q, x);
    } else if IsRenew(q) {
      RenewWritesOk(c, w, rid, q, x);
    } else if IsSurrender(q) {
      SurrenderStepOk(c, w, rid, q, x);
    } else if IsSweep(q) {
      SweepStepOk(c, w, rid, q, x);
    } else {
      FrontStepOk(c, w, rid, q, x);
    }
  }

  // ----- Whole runs -----

  ghost predicate PoliciesOk(c: Config, w: World) {
    && w.policies != []
    && (forall k | 0 <= k < |w.policies| :: Parsed(w.policies[k], c.cronOk))
    && (forall k, l | 0 <= k < |w.policies| && 0 <= l < |w.policies| ::
          w.policies[k].hash == w.policies[l].hash ==> w.policies[k] == w.policies[l])
  }

  lemma PoliciesAreSane(c: Config, w: World)
    requires PoliciesOk(c, w)
    ensures GrantsSane(w)
  {
    forall k, key, scope | 0 <= k < |w.policies| && GrantOf(w.policies[k], key, scope).Some?
      ensures IsSubjectKey(key) && 0 < GrantOf(w.policies[k], key, scope).value.ttlDefault <= GrantOf(w.policies[k], key, scope).value.ttlMax
    {
      GrantFacts(w.policies[k], c.cronOk, key, scope);
    }
  }

  ghost predicate Core(c: Config, s: State) {
    WorldOk(c, s.w) && s.inflight.Keys <= s.begun && forall rid | rid in s.inflight :: ReqOk(c, s.w, rid, s.inflight[rid])
  }

  ghost predicate Facts(c: Config, s: State) {
    PoliciesOk(c, s.w) && Core(c, s)
  }

  lemma TakeKeepsCore(c: Config, s: State, rid: Rid, x: Input)
    requires Core(c, s) && GrantsSane(s.w) && Possible(c, s, Take(rid, x))
    ensures Core(c, Next(c, s, Take(rid, x)))
  {
    var q := s.inflight[rid];
    var e := EffectOf(c, s.w, rid, q, x);
    var s' := Next(c, s, Take(rid, x));
    StepOk(c, s.w, rid, q, x);
    ApplyKeepsWorld(c, s.w, x.t2, rid, e);
    ApplyGrows(s.w, x.t2, e);
    forall r | r in s'.inflight ensures ReqOk(c, s'.w, r, s'.inflight[r]) {
      if r != rid {
        assert ReqOk(c, s.w, r, s.inflight[r]);
        ReqStable(c, s.w, s'.w, r, s.inflight[r]);
      }
    }
  }

  lemma ReloadKeepsCore(c: Config, s: State, p: Policy)
    requires Core(c, s)
    ensures Core(c, Next(c, s, Reload(p)))
  {
    var s' := Next(c, s, Reload(p));
    assert Grows(s.w, s'.w);
    forall r | r in s'.inflight ensures ReqOk(c, s'.w, r, s'.inflight[r]) {
      ReqStable(c, s.w, s'.w, r, s.inflight[r]);
    }
    forall n | 0 <= n < |s'.w.replies| ensures ReplyOk(c, s'.w, s'.w.replies[n]) {
      ReplyStable(c, s.w, s'.w, s.w.replies[n]);
    }
  }

  lemma BeginKeepsCore(c: Config, s: State, step: Step)
    requires Core(c, s) && !step.Reload? && !step.Take? && Possible(c, s, step)
    ensures Core(c, Next(c, s, step))
  {
    var s' := Next(c, s, step);
    forall r | r in s'.inflight ensures ReqOk(c, s'.w, r, s'.inflight[r]) {
      if r == step.rid {
        assert ReqOk(c, s.w, r, FirstReq(s.w, step));
      } else {
        assert ReqOk(c, s.w, r, s.inflight[r]);
      }
    }
  }

  lemma OneMorePolicy(c: Config, w: World, w': World, p: Policy)
    requires PoliciesOk(c, w) && w'.policies == w.policies + [p] && Parsed(p, c.cronOk)
    requires forall k | 0 <= k < |w.policies| :: w.policies[k].hash == p.hash ==> w.policies[k] == p
    ensures PoliciesOk(c, w')
  {
  }

  lemma NextKeepsFacts(c: Config, s: State, step: Step)
    requires Facts(c, s) && Possible(c, s, step)
    ensures Facts(c, Next(c, s, step))
  {
    PoliciesAreSane(c, s.w);
    match step
    case Reload(p) =>
      ReloadKeepsCore(c, s, p);
      OneMorePolicy(c, s.w, Next(c, s, step).w, p);
    case Take(rid, x) => TakeKeepsCore(c, s, rid, x);
    case _ => BeginKeepsCore(c, s, step);
  }

  lemma {:induction false} RunKeepsFacts(c: Config, s: State, steps: seq<Step>)
    requires Facts(c, s) && IsRun(c, s, steps)
    ensures Facts(c, Run(c, s, steps))
    decreases |steps|
  {
    if steps != [] {
      NextKeepsFacts(c, s, steps[0]);
      RunKeepsFacts(c, Next(c, s, steps[0]), steps[1..]);
    }
  }

  lemma FirstPolicy(c: Config, w: World)
    requires |w.policies| == 1 && Parsed(w.policies[0], c.cronOk)
    ensures PoliciesOk(c, w)
  {
    assert w.policies == [w.policies[0]];
  }

  lemma EmptyCore(c: Config, s: State)
    requires s.w.policies != [] && s.w.records == map[] && s.w.present == {} && s.w.stream == [] && s.w.replies == []
    requires s.inflight == map[] && s.begun == {}
    ensures Core(c, s)
  {
  }

  lemma InitFacts(c: Config, s: State)
    requires Init(c, s)
    ensures Facts(c, s)
  {
    FirstPolicy(c, s.w);
    EmptyCore(c, s);
  }

  lemma ReachableFacts(c: Config, s: State, steps: seq<Step>)
    requires Init(c, s) && IsRun(c, s, steps)
    ensures Facts(c, Run(c, s, steps))
  {
    InitFacts(c, s);
    RunKeepsFacts(c, s, steps);
  }

  // ----- The theorems -----

  /** Policy p grants scope to sub and, if the grant has windows, one of them fired recently enough. */
  ghost predicate Permits(c: Config, p: Policy, sub: Subject, scope: string, t: int) {
    var grant := GrantOf(p, Key(sub), scope);
    grant.Some? && (grant.value.windows == [] || FiredWithin(c.sched, grant.value, t))
  }

  /** A disclosure is preceded by its lease.issued event; the policy that event names by hash was in
      force at some moment of the request, and permits the disclosure at a time within it. */
  ghost predicate Justified(c: Config, w: World, r: Reply) {
    r.from.clock <= r.checkedAt <= w.clock && exists n :: 0 <= n < r.at <= |w.stream| && Justifies(c, w, r, w.stream[n])
  }

  ghost predicate Justifies(c: Config, w: World, r: Reply, e: Event) {
    && e.Issued? && e.rid == r.rid && e.sub == r.sub && e.id == r.id && e.scope == r.scope
    && (exists k :: r.from.pol <= k <= r.to < |w.policies| && w.policies[k].hash == e.hash)
    && (forall k | 0 <= k < |w.policies| && w.policies[k].hash == e.hash :: Permits(c, w.policies[k], r.sub, r.scope, r.checkedAt))
  }

  /** In every interleaving, with reloads anywhere and any audit write failing, every response that
      carries a secret is justified. */
  lemma SecretsAreJustified(c: Config, s: State, steps: seq<Step>, n: nat)
    requires Init(c, s) && IsRun(c, s, steps) && NextIsLeast(c.sched) && n < |Run(c, s, steps).w.replies|
    ensures Justified(c, Run(c, s, steps).w, Run(c, s, steps).w.replies[n])
  {
    ReachableFacts(c, s, steps);
    var w := Run(c, s, steps).w;
    ReplyIsJustified(c, w, w.replies[n]);
  }

  lemma ReplyIsJustified(c: Config, w: World, r: Reply)
    requires PoliciesOk(c, w) && ReplyOk(c, w, r) && NextIsLeast(c.sched)
    ensures Justified(c, w, r)
  {
    var n :| 0 <= n < r.at && IssuedBy(w.stream[n], r.rid, r.sub, r.id, r.scope, w.policies[r.pol].hash);
    OpenIffFired(c.sched, GrantOf(w.policies[r.pol], Key(r.sub), r.scope).value, r.checkedAt);
    assert Permits(c, w.policies[r.pol], r.sub, r.scope, r.checkedAt);
    assert Justifies(c, w, r, w.stream[n]);
  }

  /** In every reachable state each lease expires between its last write and that write plus the
      ttlMax of the grant that authorised it; an issued one exceeds a still-future upstream expiry
      by at most the gap between the two clock readings. */
  lemma LeasesAreBounded(c: Config, s: State, steps: seq<Step>, id: string)
    requires Init(c, s) && IsRun(c, s, steps) && id in Run(c, s, steps).w.records
    ensures var w := Run(c, s, steps).w;
            var l := w.records[id];
            && id in w.writes && w.writes[id].pol < |w.policies|
            && var wr, grant := w.writes[id], GrantOf(w.policies[w.writes[id].pol], l.subjectKey, l.scope);
               && grant.Some? && wr.at <= w.clock && wr.at <= l.expiresAt <= wr.at + grant.value.ttlMax
               && (wr.issued && wr.upstream.Some? && wr.upstream.value > wr.clampedAt ==>
                     l.expiresAt <= wr.upstream.value + (wr.at - wr.clampedAt))
  {
    ReachableFacts(c, s, steps);
    assert RecordOk(Run(c, s, steps).w, id);
  }

  /** All events about a lease, the sweep's reconstructed ones included, name the same subject and
      the same scope. */
  lemma OneSubjectPerLease(c: Config, s: State, steps: seq<Step>, m: nat, n: nat)
    requires Init(c, s) && IsRun(c, s, steps)
    requires var w := Run(c, s, steps).w;
             && m < |w.stream| && n < |w.stream| && IsLeaseEvent(w.stream[m]) && IsLeaseEvent(w.stream[n])
             && w.stream[m].id == w.stream[n].id
    ensures var w := Run(c, s, steps).w; w.stream[m].sub == w.stream[n].sub && w.stream[m].scope == w.stream[n].scope
  {
    ReachableFacts(c, s, steps);
    var w := Run(c, s, steps).w;
    assert EventOk(w, w.stream[m]) && EventOk(w, w.stream[n]);
    assert RecordOk(w, w.stream[m].id);
    if !w.stream[m].Expired? {
      SubjectRoundTrip(w.stream[m].sub);
    }
    if !w.stream[n].Expired? {
      SubjectRoundTrip(w.stream[n].sub);
    }
  }
}
