/** No unaudited lease or extension survives, in any interleaving. */
module BrokerAudit {
  import opened Base
  import opened Broker
  import opened BrokerFacts

  /** In the table and not surrendered. */
  ghost predicate Live(w: World, id: string) {
    id in w.present && id in w.records && !w.records[id].surrendered
  }

  /** A written lease.issued or lease.renewed event states this expiry for the lease. */
  ghost predicate Audited(w: World, id: string, expires: int) {
    exists n :: 0 <= n < |w.stream| && States(w.stream[n], id, expires)
  }

  ghost predicate States(e: Event, id: string, expires: int) {
    (e.Issued? || e.Renewed?) && e.id == id && e.expires == expires
  }

  /** The event states this expiry of the lease, to the second. */
  ghost predicate Attests(e: Event, id: string, expiresAt: int) {
    (e.Issued? || e.Renewed?) && e.id == id && e.expires * SECOND <= expiresAt < (e.expires + 1) * SECOND
  }

  /** A request that has written the lease and not yet settled the write's audit record. */
  ghost predicate Unsettled(q: Req, id: string) {
    || (q.CreateBuild? && q.id == id) || (q.CreateEmit? && q.id == id) || (q.CreateUndo? && q.id == id)
    || (q.RenewEmit? && q.copy.id == id) || (q.RenewKill? && q.id == id)
  }

  /** ... and that will audit this very expiry, or take the lease down. */
  ghost predicate Covers(q: Req, id: string, expiresAt: int) {
    && Unsettled(q, id)
    && (q.CreateEmit? ==> q.expires == WholeSeconds(expiresAt))
    && (q.RenewEmit? ==> q.copy.expiresAt == expiresAt)
  }

  ghost predicate Accounted(s: State, id: string)
    requires id in s.w.records
  {
    || Audited(s.w, id, WholeSeconds(s.w.records[id].expiresAt))
    || exists rid :: rid in s.inflight && Covers(s.inflight[rid], id, s.w.records[id].expiresAt)
  }

  ghost predicate AuditInv(s: State) {
    forall id | Live(s.w, id) :: Accounted(s, id)
  }

  /** The request covers whatever lease this effect writes. */
  ghost predicate CoversItsWrite(e: Effect) {
    e.change.Puts? ==> e.next.Some? && Covers(e.next.value, e.change.lease.id, e.change.lease.expiresAt)
  }

  lemma CreateCovers(c: Config, w: World, rid: Rid, q: Req, x: Input)
    requires IsCreate(q)
    ensures CoversItsWrite(CreateStep(c, w, rid, q, x))
  {
  }

  lemma RenewCovers(w: World, rid: Rid, q: Req, x: Input)
    requires IsRenew(q) && forall id | id in w.records :: w.records[id].id == id
    ensures CoversItsWrite(RenewStep(w, rid, q, x))
  {
    if q.RenewStore? {
      assert Table(w).Keys <= w.records.Keys;
    }
  }

  /** A step that writes a lease leaves its request covering what it wrote. */
  lemma WriterCovers(c: Config, w: World, rid: Rid, q: Req, x: Input)
    requires forall id | id in w.records :: w.records[id].id == id
    ensures CoversItsWrite(EffectOf(c, w, rid, q, x))
  {
    if IsCreate(q) {
      CreateCovers(c, w, rid, q, x);
    } else if IsRenew(q) {
      RenewCovers(w, rid, q, x);
    }
  }

  /** A covering request keeps covering until the event is written or the lease is dead. */
  lemma CovererSettles(c: Config, w: World, rid: Rid, q: Req, x: Input, id: string)
    requires id in w.records && w.present <= w.records.Keys && Covers(q, id, w.records[id].expiresAt)
    ensures var e := EffectOf(c, w, rid, q, x);
            var w', exp := Apply(w, x.t2, e), w.records[id].expiresAt;
            || !Live(w', id) || Audited(w', id, WholeSeconds(exp))
            || (e.next.Some? && Covers(e.next.value, id, exp))
  {
    var e := EffectOf(c, w, rid, q, x);
    var w' := Apply(w, x.t2, e);
    if e.events != [] {
      assert w'.stream[|w.stream|] == e.events[0];
    }
    if q.RenewKill? && id in w.present {
      assert Table(w)[id] == w.records[id];
    }
  }

  lemma AuditedStable(w: World, w': World, id: string, expires: int)
    requires Audited(w, id, expires) && w.stream <= w'.stream
    ensures Audited(w', id, expires)
  {
    var n :| 0 <= n < |w.stream| && States(w.stream[n], id, expires);
    assert w'.stream[n] == w.stream[n];
  }

  /** A change revives no lease, and only a put moves an expiry. */
  lemma LiveKept(w: World, clock: int, e: Effect, id: string)
    requires w.present <= w.records.Keys && Live(Apply(w, clock, e), id) && !(e.change.Puts? && e.change.lease.id == id)
    ensures Live(w, id) && Apply(w, clock, e).records[id].expiresAt == w.records[id].expiresAt
  {
    KeysKept(w, e.change);
    RecordsKept(w, e.change, id);
    if e.change.Marks? && e.change.id == id && id in w.present {
      assert Table(w)[id] == w.records[id];
    }
  }

  lemma TakeAccounts(c: Config, s: State, rid: Rid, x: Input, id: string)
    requires s.w.present <= s.w.records.Keys && (forall k | k in s.w.records :: s.w.records[k].id == k)
    requires AuditInv(s) && rid in s.inflight && Live(Next(c, s, Take(rid, x)).w, id)
    ensures Accounted(Next(c, s, Take(rid, x)), id)
  {
    var q, s' := s.inflight[rid], Next(c, s, Take(rid, x));
    var e := EffectOf(c, s.w, rid, q, x);
    if e.change.Puts? && e.change.lease.id == id {
      WriterCovers(c, s.w, rid, q, x);
      assert s'.w.records[id] == e.change.lease;
      assert s'.inflight[rid] == e.next.value;
    } else {
      LiveKept(s.w, x.t2, e, id);
      assert Accounted(s, id);
      var exp := s.w.records[id].expiresAt;
      if Audited(s.w, id, WholeSeconds(exp)) {
        AuditedStable(s.w, s'.w, id, WholeSeconds(exp));
      } else {
        var r :| r in s.inflight && Covers(s.inflight[r], id, exp);
        if r == rid {
          CovererSettles(c, s.w, rid, q, x, id);
          assert e.next.Some? ==> s'.inflight[rid] == e.next.value;
        } else {
          assert s'.inflight[r] == s.inflight[r];
        }
      }
    }
  }

  lemma StillAccounted(s: State, s': State, id: string)
    requires id in s.w.records && id in s'.w.records && s'.w.records[id] == s.w.records[id] && s'.w.stream == s.w.stream
    requires Accounted(s, id) && forall r | r in s.inflight :: r in s'.inflight && s'.inflight[r] == s.inflight[r]
    ensures Accounted(s', id)
  {
    if Audited(s.w, id, WholeSeconds(s.w.records[id].expiresAt)) {
      AuditedStable(s.w, s'.w, id, WholeSeconds(s.w.records[id].expiresAt));
    } else {
      var r :| r in s.inflight && Covers(s.inflight[r], id, s.w.records[id].expiresAt);
      assert s'.inflight[r] == s.inflight[r];
    }
  }

  lemma TakeKeepsAudit(c: Config, s: State, rid: Rid, x: Input)
    requires AuditInv(s) && rid in s.inflight
    requires s.w.present <= s.w.records.Keys && forall k | k in s.w.records :: s.w.records[k].id == k
    ensures AuditInv(Next(c, s, Take(rid, x)))
  {
    forall id | Live(Next(c, s, Take(rid, x)).w, id) ensures Accounted(Next(c, s, Take(rid, x)), id) {
      TakeAccounts(c, s, rid, x, id);
    }
  }

  lemma OtherKeepsAudit(c: Config, s: State, step: Step)
    requires AuditInv(s) && Possible(c, s, step) && !step.Take? && s.inflight.Keys <= s.begun
    ensures AuditInv(Next(c, s, step))
  {
    var s' := Next(c, s, step);
    forall id | Live(s'.w, id) ensures Accounted(s', id) {
      assert Live(s.w, id);
      StillAccounted(s, s', id);
    }
  }

  lemma NextKeepsAudit(c: Config, s: State, step: Step)
    requires AuditInv(s) && Core(c, s) && Possible(c, s, step)
    ensures AuditInv(Next(c, s, step))
  {
    if step.Take? {
      assert forall k | k in s.w.records :: RecordOk(s.w, k);
      TakeKeepsAudit(c, s, step.rid, step.x);
    } else {
      OtherKeepsAudit(c, s, step);
    }
  }

  lemma {:induction false} RunKeepsAudit(c: Config, s: State, steps: seq<Step>)
    requires Facts(c, s) && AuditInv(s) && IsRun(c, s, steps)
    ensures AuditInv(Run(c, s, steps))
    decreases |steps|
  {
    if steps != [] {
      NextKeepsFacts(c, s, steps[0]);
      NextKeepsAudit(c, s, steps[0]);
      RunKeepsAudit(c, Next(c, s, steps[0]), steps[1..]);
    }
  }

  lemma InitAudited(c: Config, s: State)
    requires Init(c, s)
    ensures AuditInv(s)
  {
  }

  /** In every interleaving of create, renew, surrender, sweep and reload steps, with any audit
      writes failing: a lease in the table that is not surrendered, and whose writers have all
      settled, has the expiry some written lease.issued or lease.renewed event states for it. */
  lemma NoUnauditedLease(c: Config, s: State, steps: seq<Step>, id: string)
    requires Init(c, s) && IsRun(c, s, steps)
    requires var s' := Run(c, s, steps);
             Live(s'.w, id) && forall rid | rid in s'.inflight :: !Unsettled(s'.inflight[rid], id)
    ensures var w := Run(c, s, steps).w;
            exists n :: 0 <= n < |w.stream| && Attests(w.stream[n], id, w.records[id].expiresAt)
  {
    InitFacts(c, s);
    InitAudited(c, s);
    RunKeepsAudit(c, s, steps);
    assert Accounted(Run(c, s, steps), id);
    var w := Run(c, s, steps).w;
    SecondsBelow(w.records[id].expiresAt);
    var n :| 0 <= n < |w.stream| && States(w.stream[n], id, WholeSeconds(w.records[id].expiresAt));
    assert Attests(w.stream[n], id, w.records[id].expiresAt);
  }
}
