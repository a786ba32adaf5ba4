/** What was asked and what came of it: every lease, event and reply goes back to the request that
    started it, down to the seconds it asked for. */
module BrokerStarts {
  import opened Base
  import opened Policy
  import opened Broker
  import opened BrokerFacts

  // ----- What a caller may expect -----

  /** The time to live for a request of so many seconds: the default for 0, else the seconds asked
      for, or the whole seconds of the grant's maximum if that is less. */
  function WantedTtl(asked: int, g: Grant): int {
    if asked == 0 then g.ttlDefault
    else if asked * SECOND <= g.ttlMax then asked * SECOND
    else g.ttlMax - g.ttlMax % SECOND
  }

  /** A still-future upstream expiry that comes sooner takes its place. */
  function Nearer(ttl: int, upstream: Option<int>, now: int): int {
    if upstream.Some? && now < upstream.value < now + ttl then upstream.value - now else ttl
  }

  lemma ClampIsWanted(asked: int, g: Grant)
    requires IsInt64(asked) && 0 < g.ttlDefault <= g.ttlMax
    ensures ClampTtl(asked, g) == if asked < 0 then None else Some(WantedTtl(asked, g))
  {
    ClampTtlExact(asked, g);
  }

  lemma ClampIsNearer(ttl: Duration, upstream: Option<int>, now: int)
    ensures ClampUpstream(ttl, upstream, now) == Nearer(ttl, upstream, now)
  {
    if upstream.Some? {
      var d := upstream.value - now;
      assert IsInt64(ttl);
      assert 0 < SubTime(upstream.value, now) < ttl <==> 0 < d < ttl;
      assert 0 < d < ttl ==> SubTime(upstream.value, now) == d;
    }
  }

  predicate HasSub(step: Step) {
    step.BeginCreate? || step.BeginRenew? || step.BeginSurrender? || step.BeginClaims?
  }

  /** A policy that was in force at some moment since the request started. */
  ghost predicate Current(w: World, st: Start, pol: nat) {
    st.pol <= pol < |w.policies|
  }

  // ----- Requests -----

  ghost predicate CreateServes(w: World, st: Start, rid: Rid, q: Req)
    requires IsCreate(q)
  {
    && st.step.BeginCreate? && st.step.rid == rid
    && match q
       case CreateBegun(sub, scope, asked, from) =>
         sub == st.step.sub && scope == st.step.scope && asked == st.step.asked && st.pol < |w.policies|
       case CreateAdmit(sub, scope, asked, from, pol) =>
         sub == st.step.sub && scope == st.step.scope && asked == st.step.asked && Current(w, st, pol)
       case CreateCheck(sub, scope, asked, from, pol) =>
         sub == st.step.sub && scope == st.step.scope && asked == st.step.asked && Current(w, st, pol)
       case CreateDeny(sub, pol) => sub == st.step.sub && Current(w, st, pol)
       case CreateFetch(sub, scope, from, pol, _, grant, ttl) =>
         && sub == st.step.sub && scope == st.step.scope && Current(w, st, pol)
         && 0 <= st.step.asked && ttl == WantedTtl(st.step.asked, grant)
       case CreateStore(sub, scope, from, pol, _, grant, ttl, upstream, clampedAt) =>
         && sub == st.step.sub && scope == st.step.scope && Current(w, st, pol)
         && 0 <= st.step.asked && ttl == Nearer(WantedTtl(st.step.asked, grant), upstream, clampedAt)
       case CreateBuild(sub, scope, from, pol, _, _) => sub == st.step.sub && scope == st.step.scope && Current(w, st, pol)
       case CreateEmit(sub, scope, from, pol, _, _, _) => sub == st.step.sub && scope == st.step.scope && Current(w, st, pol)
       case CreateUndo(_) => true
       case CreateReply(sub, scope, from, pol, _, _) => sub == st.step.sub && scope == st.step.scope && Current(w, st, pol)
  }

  ghost predicate RenewServes(w: World, st: Start, rid: Rid, q: Req)
    requires IsRenew(q)
  {
    && st.step.BeginRenew? && st.step.rid == rid && st.pol < |w.policies|
    && match q
       case RenewAdmit(sub, id, asked) => sub == st.step.sub && id == st.step.id && asked == st.step.asked
       case RenewGet(sub, id, asked) => sub == st.step.sub && id == st.step.id && asked == st.step.asked
       case RenewPolicy(sub, asked, copy) => sub == st.step.sub && copy.id == st.step.id && asked == st.step.asked
       case RenewStore(sub, pol, ttl, copy) =>
         && sub == st.step.sub && copy.id == st.step.id && Current(w, st, pol) && 0 <= st.step.asked
         && var grant := GrantOf(w.policies[pol], Key(sub), copy.scope);
            grant.Some? && grant.value.renewable && ttl == WantedTtl(st.step.asked, grant.value)
       case RenewEmit(sub, pol, copy) => sub == st.step.sub && copy.id == st.step.id && Current(w, st, pol)
       case RenewKill(_) => true
  }

  ghost predicate OtherServes(w: World, st: Start, rid: Rid, q: Req)
    requires !IsCreate(q) && !IsRenew(q)
  {
    && !st.step.Take? && !st.step.Reload? && st.step.rid == rid && st.pol < |w.policies|
    && match q
       case SurrenderAdmit(sub, id) => st.step == BeginSurrender(rid, sub, id)
       case SurrenderGet(sub, id) => st.step == BeginSurrender(rid, sub, id)
       case SurrenderHash(sub, copy) => st.step == BeginSurrender(rid, sub, copy.id)
       case SurrenderEmit(sub, pol, copy) => st.step == BeginSurrender(rid, sub, copy.id) && Current(w, st, pol)
       case SurrenderMark(id) => st.step.BeginSurrender? && st.step.id == id
       case ClaimsAdmit(sub, _) => st.step.BeginClaims? && st.step.sub == sub
       case ClaimsCheck(sub, _) => st.step.BeginClaims? && st.step.sub == sub
       case ClaimsEmit(sub, _) => st.step.BeginClaims? && st.step.sub == sub
       case Throttled(sub) => HasSub(st.step) && st.step.sub == sub
       case ThrottleEmit(sub, pol) => HasSub(st.step) && st.step.sub == sub && Current(w, st, pol)
       case AuthAsk(source) => st.step == BeginAuthFailure(rid, source)
       case AuthEmit(source) => st.step == BeginAuthFailure(rid, source)
       case SweepBegun(_) => st.step.BeginSweep?
       case SweepTable(_, pol) => st.step.BeginSweep? && Current(w, st, pol)
       case SweepEmit(_, pol) => st.step.BeginSweep? && Current(w, st, pol)
  }

  /** What a request in flight keeps of its start. */
  ghost predicate Serves(w: World, st: Start, rid: Rid, q: Req) {
    if IsCreate(q) then CreateServes(w, st, rid, q) else if IsRenew(q) then RenewServes(w, st, rid, q) else OtherServes(w, st, rid, q)
  }

  // ----- Leases, events, replies -----

  /** A lease as its last write made it: the request that asked for it, under a grant of a policy in
      force during that request, with exactly the time to live it was entitled to. */
  ghost predicate WriteServes(w: World, st: Start, l: Lease, wr: Write) {
    && Current(w, st, wr.pol) && wr.pol <= wr.to < |w.policies|
    && var grant := GrantOf(w.policies[wr.pol], l.subjectKey, l.scope);
       && grant.Some?
       && if wr.issued
          then
            && st.step.BeginCreate? && st.step.rid == wr.rid && Key(st.step.sub) == l.subjectKey && st.step.scope == l.scope
            && 0 <= st.step.asked && l.renewable == grant.value.renewable
            && l.expiresAt == wr.at + Nearer(WantedTtl(st.step.asked, grant.value), wr.upstream, wr.clampedAt)
          else
            && st.step.BeginRenew? && st.step.rid == wr.rid && Key(st.step.sub) == l.subjectKey && st.step.id == l.id
            && 0 <= st.step.asked && grant.value.renewable && l.renewable
            && l.expiresAt == wr.at + WantedTtl(st.step.asked, grant.value)
  }

  ghost predicate Hashed(w: World, st: Start, hash: string) {
    exists k: nat :: Current(w, st, k) && w.policies[k].hash == hash
  }

  /** An event says who asked for what, under a policy of that request. */
  ghost predicate EventServes(w: World, st: Start, e: Event) {
    match e
    case Issued(rid, sub, _, scope, _, hash) =>
      st.step.BeginCreate? && st.step.rid == rid && st.step.sub == sub && st.step.scope == scope && Hashed(w, st, hash)
    case Renewed(rid, sub, id, _, _, hash) =>
      st.step.BeginRenew? && st.step.rid == rid && st.step.sub == sub && st.step.id == id && Hashed(w, st, hash)
    case Surrendered(rid, sub, id, _, hash) => st.step == BeginSurrender(rid, sub, id) && Hashed(w, st, hash)
    case Expired(rid, _, _, _, _, hash) => st.step.BeginSweep? && st.step.rid == rid && Hashed(w, st, hash)
    case Denied(rid, sub, aggregated, hash) =>
      && HasSub(st.step) && st.step.rid == rid && st.step.sub == sub && (!aggregated ==> st.step.BeginCreate?) && Hashed(w, st, hash)
    case ClaimRecorded(rid, sub) => st.step.BeginClaims? && st.step.rid == rid && st.step.sub == sub
    case AuthFailed(rid, source) => st.step == BeginAuthFailure(rid, source)
  }

  ghost predicate ReplyServes(st: Start, r: Reply) {
    st.step.BeginCreate? && st.step.rid == r.rid && st.step.sub == r.sub && st.step.scope == r.scope
  }

  // ----- One step keeps it -----

  ghost predicate EffectServes(w: World, st: Start, rid: Rid, e: Effect) {
    && (e.next.Some? ==> Serves(w, st, rid, e.next.value))
    && (e.change.Puts? ==> e.change.write.rid == rid && WriteServes(w, st, e.change.lease, e.change.write))
    && |e.events| <= 1 && (e.events != [] ==> e.events[0].rid == rid && EventServes(w, st, e.events[0]))
    && |e.replies| <= 1 && (e.replies != [] ==> e.replies[0].rid == rid && ReplyServes(st, e.replies[0]))
  }

  lemma NewestIsCurrent(w: World, st: Start)
    requires w.policies != [] && st.pol < |w.policies|
    ensures Current(w, st, Newest(w))
  {
  }

  lemma HashedBy(w: World, st: Start, pol: nat)
    requires Current(w, st, pol)
    ensures Hashed(w, st, PolicyAt(w, pol).hash)
  {
  }

  lemma CreateReadsServe(c: Config, w: World, st: Start, rid: Rid, q: Req, x: Input)
    requires IsCreate(q) && CreateServes(w, st, rid, q) && w.policies != []
    requires (q.CreateBegun? || q.CreateAdmit? || q.CreateBuild? || q.CreateUndo? || q.CreateReply?)
    ensures EffectServes(w, st, rid, CreateStep(c, w, rid, q, x))
  {
  }

  lemma CreateCheckServes(c: Config, w: World, st: Start, rid: Rid, q: Req, x: Input)
    requires q.CreateCheck? && CreateServes(w, st, rid, q) && ReqOk(c, w, rid, q) && GrantsSane(w)
    ensures EffectServes(w, st, rid, CreateStep(c, w, rid, q, x))
  {
    var grant := GrantOf(w.policies[q.pol], Key(q.sub), q.scope);
    if grant.Some? {
      ClampIsWanted(q.asked, grant.value);
    }
  }

  lemma CreateFetchServes(c: Config, w: World, st: Start, rid: Rid, q: Req, x: Input)
    requires q.CreateFetch? && CreateServes(w, st, rid, q)
    ensures EffectServes(w, st, rid, CreateStep(c, w, rid, q, x))
  {
    if x.fetch.Fetched? {
      ClampIsNearer(q.ttl, x.fetch.expiresAt, x.t);
    }
  }

  lemma CreateStoreServes(c: Config, w: World, st: Start, rid: Rid, q: Req, x: Input)
    requires q.CreateStore? && CreateServes(w, st, rid, q) && ReqOk(c, w, rid, q) && w.policies != []
    ensures EffectServes(w, st, rid, CreateStep(c, w, rid, q, x))
  {
    NewestIsCurrent(w, st);
  }

  lemma CreateEmitServes(c: Config, w: World, st: Start, rid: Rid, q: Req, x: Input)
    requires (q.CreateEmit? || q.CreateDeny?) && CreateServes(w, st, rid, q)
    ensures EffectServes(w, st, rid, CreateStep(c, w, rid, q, x))
  {
    HashedBy(w, st, q.pol);
  }

  lemma CreateStepServes(c: Config, w: World, st: Start, rid: Rid, q: Req, x: Input)
    requires IsCreate(q) && CreateServes(w, st, rid, q) && ReqOk(c, w, rid, q) && GrantsSane(w) && w.policies != []
    ensures EffectServes(w, st, rid, CreateStep(c, w, rid, q, x))
  {
    if q.CreateCheck? {
      CreateCheckServes(c, w, st, rid, q, x);
    } else if q.CreateFetch? {
      CreateFetchServes(c, w, st, rid, q, x);
    } else if q.CreateStore? {
      CreateStoreServes(c, w, st, rid, q, x);
    } else if q.CreateEmit? || q.CreateDeny? {
      CreateEmitServes(c, w, st, rid, q, x);
    } else {
      CreateReadsServe(c, w, st, rid, q, x);
    }
  }

  ghost predicate RecordsKeyed(w: World) {
    forall id | id in w.records :: w.records[id].id == id
  }

  lemma RenewReadsServe(w: World, st: Start, rid: Rid, q: Req, x: Input)
    requires (q.RenewAdmit? || q.RenewGet? || q.RenewKill?) && RenewServes(w, st, rid, q) && RecordsKeyed(w)
    ensures EffectServes(w, st, rid, RenewStep(w, rid, q, x))
  {
  }

  lemma RenewPolicyServes(c: Config, w: World, st: Start, rid: Rid, q: Req, x: Input)
    requires q.RenewPolicy? && RenewServes(w, st, rid, q) && ReqOk(c, w, rid, q) && GrantsSane(w) && w.policies != []
    ensures EffectServes(w, st, rid, RenewStep(w, rid, q, x))
  {
    NewestIsCurrent(w, st);
    var grant := GrantOf(w.policies[Newest(w)], Key(q.sub), q.copy.scope);
    if grant.Some? {
      ClampIsWanted(q.asked, grant.value);
    }
  }

  lemma RenewStoreServes(c: Config, w: World, st: Start, rid: Rid, q: Req, x: Input)
    requires q.RenewStore? && RenewServes(w, st, rid, q) && ReqOk(c, w, rid, q) && RecordsKeyed(w)
    ensures EffectServes(w, st, rid, RenewStep(w, rid, q, x))
  {
    NewestIsCurrent(w, st);
    if q.copy.id in Table(w) {
      assert Table(w)[q.copy.id] == w.records[q.copy.id];
    }
  }

  lemma RenewEmitServes(w: World, st: Start, rid: Rid, q: Req, x: Input)
    requires q.RenewEmit? && RenewServes(w, st, rid, q)
    ensures EffectServes(w, st, rid, RenewStep(w, rid, q, x))
  {
    HashedBy(w, st, q.pol);
  }

  lemma RenewStepServes(c: Config, w: World, st: Start, rid: Rid, q: Req, x: Input)
    requires IsRenew(q) && RenewServes(w, st, rid, q) && ReqOk(c, w, rid, q) && GrantsSane(w) && w.policies != [] && RecordsKeyed(w)
    ensures EffectServes(w, st, rid, RenewStep(w, rid, q, x))
  {
    if q.RenewPolicy? {
      RenewPolicyServes(c, w, st, rid, q, x);
    } else if q.RenewStore? {
      RenewStoreServes(c, w, st, rid, q, x);
    } else if q.RenewEmit? {
      RenewEmitServes(w, st, rid, q, x);
    } else {
      RenewReadsServe(w, st, rid, q, x);
    }
  }

  lemma SurrenderReadsServe(w: World, st: Start, rid: Rid, q: Req, x: Input)
    requires IsSurrender(q) && !q.SurrenderEmit? && OtherServes(w, st, rid, q) && w.policies != [] && RecordsKeyed(w)
    ensures EffectServes(w, st, rid, SurrenderStep(w, rid, q, x))
  {
  }

  lemma SurrenderEmitServes(w: World, st: Start, rid: Rid, q: Req, x: Input)
    requires q.SurrenderEmit? && OtherServes(w, st, rid, q)
    ensures EffectServes(w, st, rid, SurrenderStep(w, rid, q, x))
  {
    HashedBy(w, st, q.pol);
  }

  lemma SurrenderStepServes(w: World, st: Start, rid: Rid, q: Req, x: Input)
    requires IsSurrender(q) && OtherServes(w, st, rid, q) && w.policies != [] && RecordsKeyed(w)
    ensures EffectServes(w, st, rid, SurrenderStep(w, rid, q, x))
  {
    if q.SurrenderEmit? {
      SurrenderEmitServes(w, st, rid, q, x);
    } else {
      SurrenderReadsServe(w, st, rid, q, x);
    }
  }

  lemma SweepStepServes(w: World, st: Start, rid: Rid, q: Req, x: Input)
    requires IsSweep(q) && OtherServes(w, st, rid, q) && w.policies != []
    ensures EffectServes(w, st, rid, SweepStep(w, rid, q, x))
  {
    if q.SweepEmit? {
      HashedBy(w, st, q.pol);
    }
  }

  lemma FrontStepServes(c: Config, w: World, st: Start, rid: Rid, q: Req, x: Input)
    requires IsFront(q) && OtherServes(w, st, rid, q) && w.policies != []
    ensures EffectServes(w, st, rid, FrontStep(c, w, rid, q, x))
  {
    if q.ThrottleEmit? {
      HashedBy(w, st, q.pol);
    }
  }

  lemma StepServes(c: Config, w: World, st: Start, rid: Rid, q: Req, x: Input)
    requires Serves(w, st, rid, q) && ReqOk(c, w, rid, q) && GrantsSane(w) && w.policies != [] && RecordsKeyed(w)
    ensures EffectServes(w, st, rid, EffectOf(c, w, rid, q, x))
  {
    if IsCreate(q) {
      CreateStepServes(c, w, st, rid, q, x);
    } else if IsRenew(q) {
      RenewStepServes(c, w, st, rid, q, x);
    } else if IsSurrender(q) {
      SurrenderStepServes(w, st, rid, q, x);
    } else if IsSweep(q) {
      SweepStepServes(w, st, rid, q, x);
    } else {
      FrontStepServes(c, w, st, rid, q, x);
    }
  }

  // ----- It survives whatever else happens -----

  lemma ServesStable(w: World, w': World, st: Start, rid: Rid, q: Req)
    requires Serves(w, st, rid, q) && w.policies <= w'.policies
    ensures Serves(w', st, rid, q)
  {
    if q.RenewStore? {
      assert w'.policies[q.pol] == w.policies[q.pol];
    }
  }

  lemma HashedStable(w: World, w': World, st: Start, hash: string)
    requires Hashed(w, st, hash) && w.policies <= w'.policies
    ensures Hashed(w', st, hash)
  {
    var k: nat :| Current(w, st, k) && w.policies[k].hash == hash;
    assert Current(w', st, k) && w'.policies[k] == w.policies[k];
  }

  lemma EventServesStable(w: World, w': World, st: Start, e: Event)
    requires EventServes(w, st, e) && w.policies <= w'.policies
    ensures EventServes(w', st, e)
  {
    if !e.ClaimRecorded? && !e.AuthFailed? {
      HashedStable(w, w', st, e.hash);
    }
  }

  /** The parts of a lease that only a store write moves. */
  predicate SameTerms(l: Lease, l': Lease) {
    l'.id == l.id && l'.subjectKey == l.subjectKey && l'.scope == l.scope && l'.expiresAt == l.expiresAt && l'.renewable == l.renewable
  }

  lemma WriteServesStable(w: World, w': World, st: Start, l: Lease, l': Lease, wr: Write)
    requires WriteServes(w, st, l, wr) && w.policies <= w'.policies && SameTerms(l, l')
    ensures WriteServes(w', st, l', wr)
  {
    assert w'.policies[wr.pol] == w.policies[wr.pol];
  }

  lemma TermsKept(w: World, ch: Change, id: string)
    requires id in w.records && w.present <= w.records.Keys && !(ch.Puts? && ch.lease.id == id)
    ensures id in RecordsAfter(w, ch) && SameTerms(w.records[id], RecordsAfter(w, ch)[id])
  {
    if ch.Marks? && id == ch.id && id in w.present {
      assert Table(w)[id] == w.records[id];
    }
  }

  // ----- Runs -----

  ghost predicate RecordsServe(w: World, starts: map<Rid, Start>) {
    forall id | id in w.records ::
      id in w.writes && w.writes[id].rid in starts && WriteServes(w, starts[w.writes[id].rid], w.records[id], w.writes[id])
  }

  ghost predicate StreamServes(w: World, starts: map<Rid, Start>) {
    forall n | 0 <= n < |w.stream| :: w.stream[n].rid in starts && EventServes(w, starts[w.stream[n].rid], w.stream[n])
  }

  ghost predicate RepliesServe(w: World, starts: map<Rid, Start>) {
    forall n | 0 <= n < |w.replies| :: w.replies[n].rid in starts && ReplyServes(starts[w.replies[n].rid], w.replies[n])
  }

  ghost predicate ReqsServe(s: State) {
    forall rid | rid in s.inflight :: rid in s.starts && Serves(s.w, s.starts[rid], rid, s.inflight[rid])
  }

  ghost predicate StartInv(s: State) {
    s.starts.Keys <= s.begun && ReqsServe(s) && RecordsServe(s.w, s.starts) && StreamServes(s.w, s.starts) && RepliesServe(s.w, s.starts)
  }

  lemma ApplyRecordsServe(w: World, clock: int, starts: map<Rid, Start>, rid: Rid, e: Effect)
    requires RecordsServe(w, starts) && w.present <= w.records.Keys && rid in starts && EffectServes(w, starts[rid], rid, e)
    ensures RecordsServe(Apply(w, clock, e), starts)
  {
    var w' := Apply(w, clock, e);
    KeysKept(w, e.change);
    forall id | id in w'.records
      ensures id in w'.writes && w'.writes[id].rid in starts && WriteServes(w', starts[w'.writes[id].rid], w'.records[id], w'.writes[id])
    {
      if e.change.Puts? && e.change.lease.id == id {
        WriteServesStable(w, w', starts[rid], e.change.lease, e.change.lease, e.change.write);
      } else {
        TermsKept(w, e.change, id);
        WriteServesStable(w, w', starts[w.writes[id].rid], w.records[id], w'.records[id], w.writes[id]);
      }
    }
  }

  lemma ApplyStreamServes(w: World, clock: int, starts: map<Rid, Start>, rid: Rid, e: Effect)
    requires StreamServes(w, starts) && rid in starts && EffectServes(w, starts[rid], rid, e)
    ensures StreamServes(Apply(w, clock, e), starts)
  {
    var w' := Apply(w, clock, e);
    forall n | 0 <= n < |w'.stream| ensures w'.stream[n].rid in starts && EventServes(w', starts[w'.stream[n].rid], w'.stream[n]) {
      EventServesStable(w, w', starts[w'.stream[n].rid], w'.stream[n]);
    }
  }

  lemma ApplyRepliesServe(w: World, clock: int, starts: map<Rid, Start>, rid: Rid, e: Effect)
    requires RepliesServe(w, starts) && rid in starts && EffectServes(w, starts[rid], rid, e)
    ensures RepliesServe(Apply(w, clock, e), starts)
  {
  }

  lemma StartsAfter(s: State, s': State, rid: Rid, clock: int, e: Effect)
    requires StartInv(s) && rid in s.inflight && s.w.present <= s.w.records.Keys && EffectServes(s.w, s.starts[rid], rid, e)
    requires s'.w == Apply(s.w, clock, e) && s'.inflight == Moved(s.inflight, rid, e.next) && s'.begun == s.begun && s'.starts == s.starts
    ensures StartInv(s')
  {
    ApplyRecordsServe(s.w, clock, s.starts, rid, e);
    ApplyStreamServes(s.w, clock, s.starts, rid, e);
    ApplyRepliesServe(s.w, clock, s.starts, rid, e);
    ReqsAfter(s, s', rid, e.next);
  }

  lemma TakeKeepsStarts(c: Config, s: State, rid: Rid, x: Input)
    requires StartInv(s) && rid in s.inflight && ReqOk(c, s.w, rid, s.inflight[rid]) && GrantsSane(s.w)
    requires s.w.policies != [] && s.w.present <= s.w.records.Keys && RecordsKeyed(s.w)
    ensures StartInv(Next(c, s, Take(rid, x)))
  {
    StepServes(c, s.w, s.starts[rid], rid, s.inflight[rid], x);
    StartsAfter(s, Next(c, s, Take(rid, x)), rid, x.t2, EffectOf(c, s.w, rid, s.inflight[rid], x));
  }

  lemma ReqsAfter(s: State, s': State, rid: Rid, next: Option<Req>)
    requires ReqsServe(s) && rid in s.inflight && s'.inflight == Moved(s.inflight, rid, next) && s'.starts == s.starts
    requires s.w.policies <= s'.w.policies && (next.Some? ==> Serves(s.w, s.starts[rid], rid, next.value))
    ensures ReqsServe(s')
  {
    forall r | r in s'.inflight ensures r in s'.starts && Serves(s'.w, s'.starts[r], r, s'.inflight[r]) {
      ServesStable(s.w, s'.w, s.starts[r], r, s'.inflight[r]);
    }
  }

  lemma KeyedRecords(c: Config, w: World)
    requires WorldOk(c, w)
    ensures RecordsKeyed(w)
  {
    forall id | id in w.records ensures w.records[id].id == id {
      assert RecordOk(w, id);
    }
  }

  lemma ReloadKeepsStarts(c: Config, s: State, p: Policy)
    requires StartInv(s)
    ensures StartInv(Next(c, s, Reload(p)))
  {
    var s' := Next(c, s, Reload(p));
    forall r | r in s'.inflight ensures Serves(s'.w, s'.starts[r], r, s'.inflight[r]) {
      ServesStable(s.w, s'.w, s.starts[r], r, s.inflight[r]);
    }
    forall id | id in s'.w.records ensures WriteServes(s'.w, s.starts[s.w.writes[id].rid], s'.w.records[id], s'.w.writes[id]) {
      WriteServesStable(s.w, s'.w, s.starts[s.w.writes[id].rid], s.w.records[id], s.w.records[id], s.w.writes[id]);
    }
    forall n | 0 <= n < |s'.w.stream| ensures EventServes(s'.w, s.starts[s.w.stream[n].rid], s'.w.stream[n]) {
      EventServesStable(s.w, s'.w, s.starts[s.w.stream[n].rid], s.w.stream[n]);
    }
  }

  lemma FirstServes(w: World, step: Step)
    requires !step.Reload? && !step.Take? && w.policies != []
    ensures Serves(w, Start(step, Newest(w), w.clock), step.rid, FirstReq(w, step))
  {
  }

  lemma OneMoreStart(w: World, starts: map<Rid, Start>, rid: Rid, st: Start)
    requires RecordsServe(w, starts) && StreamServes(w, starts) && RepliesServe(w, starts) && rid !in starts
    ensures RecordsServe(w, starts[rid := st]) && StreamServes(w, starts[rid := st]) && RepliesServe(w, starts[rid := st])
  {
  }

  lemma BeginKeepsStarts(c: Config, s: State, step: Step)
    requires StartInv(s) && !step.Reload? && !step.Take? && Possible(c, s, step) && s.w.policies != []
    ensures StartInv(Next(c, s, step))
  {
    FirstServes(s.w, step);
    OneMoreStart(s.w, s.starts, step.rid, Start(step, Newest(s.w), s.w.clock));
    var s' := Next(c, s, step);
    forall r | r in s'.inflight ensures r in s'.starts && Serves(s'.w, s'.starts[r], r, s'.inflight[r]) {
      if r != step.rid {
        assert r in s.inflight;
      }
    }
  }

  lemma {:induction false} RunKeepsStarts(c: Config, s: State, steps: seq<Step>)
    requires Facts(c, s) && StartInv(s) && IsRun(c, s, steps)
    ensures StartInv(Run(c, s, steps))
    decreases |steps|
  {
    if steps != [] {
      NextKeepsFacts(c, s, steps[0]);
      PoliciesAreSane(c, s.w);
      if steps[0].Take? {
        KeyedRecords(c, s.w);
        TakeKeepsStarts(c, s, steps[0].rid, steps[0].x);
      } else if steps[0].Reload? {
        ReloadKeepsStarts(c, s, steps[0].p);
      } else {
        BeginKeepsStarts(c, s, steps[0]);
      }
      RunKeepsStarts(c, Next(c, s, steps[0]), steps[1..]);
    }
  }

  lemma {:induction false} StartsStay(c: Config, s: State, steps: seq<Step>, rid: Rid)
    requires IsRun(c, s, steps) && s.starts.Keys <= s.begun && rid in s.starts
    ensures rid in Run(c, s, steps).starts && Run(c, s, steps).starts[rid] == s.starts[rid]
    decreases |steps|
  {
    if steps != [] {
      StartsStay(c, Next(c, s, steps[0]), steps[1..], rid);
    }
  }

  /** Step k of the run started this request. */
  ghost predicate StartedBy(steps: seq<Step>, k: int, rid: Rid, st: Start) {
    0 <= k < |steps| && steps[k] == st.step && !st.step.Take? && !st.step.Reload? && st.step.rid == rid
  }

  /** The recorded start of a request is the step of the run that started it. */
  lemma {:induction false} StartsAreSteps(c: Config, s: State, steps: seq<Step>, rid: Rid)
    requires IsRun(c, s, steps) && s.starts.Keys <= s.begun && rid in Run(c, s, steps).starts && rid !in s.starts
    ensures exists k :: StartedBy(steps, k, rid, Run(c, s, steps).starts[rid])
    decreases |steps|
  {
    var s', st := Next(c, s, steps[0]), Run(c, s, steps).starts[rid];
    if rid in s'.starts {
      StartsStay(c, s', steps[1..], rid);
      assert StartedBy(steps, 0, rid, st);
    } else {
      StartsAreSteps(c, s', steps[1..], rid);
      var k :| StartedBy(steps[1..], k, rid, st);
      assert StartedBy(steps, k + 1, rid, st);
    }
  }

  lemma ReachableStarts(c: Config, s: State, steps: seq<Step>)
    requires Init(c, s) && IsRun(c, s, steps)
    ensures StartInv(Run(c, s, steps))
    ensures forall rid | rid in Run(c, s, steps).starts :: exists k :: StartedBy(steps, k, rid, Run(c, s, steps).starts[rid])
  {
    InitFacts(c, s);
    RunKeepsStarts(c, s, steps);
    forall rid | rid in Run(c, s, steps).starts ensures exists k :: StartedBy(steps, k, rid, Run(c, s, steps).starts[rid]) {
      StartsAreSteps(c, s, steps, rid);
    }
  }

  // ----- The theorems -----

  /** In every reachable state, each lease goes back to the request that wrote it last: a create for
      its subject and scope, or a renewal of it by its subject under a renewable grant, in either case
      under a policy in force during that request; and it expires exactly when the seconds that
      request asked for, the grant and a sooner upstream expiry say. */
  lemma LeasesAreAsAsked(c: Config, s: State, steps: seq<Step>, id: string)
    requires Init(c, s) && IsRun(c, s, steps) && id in Run(c, s, steps).w.records
    ensures var s' := Run(c, s, steps);
            && id in s'.w.writes && s'.w.writes[id].rid in s'.starts
            && var wr := s'.w.writes[id]; var st := s'.starts[wr.rid];
               (exists k :: StartedBy(steps, k, wr.rid, st)) && WriteServes(s'.w, st, s'.w.records[id], wr)
  {
    ReachableStarts(c, s, steps);
  }

  /** Every event names the subject, lease or scope of the request that wrote it, the kind of event
      fits the kind of request, and its hash is that of a policy in force during the request. */
  lemma EventsAreAsAsked(c: Config, s: State, steps: seq<Step>, n: nat)
    requires Init(c, s) && IsRun(c, s, steps) && n < |Run(c, s, steps).w.stream|
    ensures var s' := Run(c, s, steps); var e := s'.w.stream[n];
            && e.rid in s'.starts && (exists k :: StartedBy(steps, k, e.rid, s'.starts[e.rid])) && EventServes(s'.w, s'.starts[e.rid], e)
  {
    ReachableStarts(c, s, steps);
  }

  /** A secret goes to the subject that asked for its scope. */
  lemma SecretsGoToTheAsker(c: Config, s: State, steps: seq<Step>, n: nat)
    requires Init(c, s) && IsRun(c, s, steps) && n < |Run(c, s, steps).w.replies|
    ensures var s' := Run(c, s, steps); var r := s'.w.replies[n];
            && r.rid in s'.starts && (exists k :: StartedBy(steps, k, r.rid, s'.starts[r.rid])) && ReplyServes(s'.starts[r.rid], r)
  {
    ReachableStarts(c, s, steps);
  }
}
