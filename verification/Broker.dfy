/** The lease protocol (internal/server/handlers.go over the lease table, the emitter, the policy
    store and the limiters), one separately locked step at a time.

    A request is a value that says which step comes next and what the handler holds in its local
    variables. One step reads the shared world and yields an effect on it. Every step of every
    request can be interleaved with every other, policies can be reloaded in between, and any audit
    write may fail. */
module Broker {
  import opened Base
  import opened Policy
  import LeaseStore
  import RateLimit

  type Lease = LeaseStore.Lease

  // ----- Time to live -----

  /** Go's integer division truncates toward zero. */
  function TruncDiv(a: int, b: int): int
    requires b > 0
  {
    if a >= 0 then a / b else -((-a) / b)
  }

  /** clampTTL: the clamp works in whole seconds before converting to a duration. */
  function ClampTtl(requested: int, g: Grant): Option<Duration> {
    if requested < 0 then None
    else if requested == 0 then Some(g.ttlDefault)
    else
      var maxSeconds := TruncDiv(g.ttlMax, SECOND);
      var seconds := if requested > maxSeconds then maxSeconds else requested;
      Some(Wrap64(seconds * SECOND))
  }

  /** The conversion never overflows: a positive request yields exactly its seconds, or the whole
      seconds of ttlMax; no request yields the default. The result is 0 only for a sub-second cap. */
  lemma ClampTtlExact(requested: int, g: Grant)
    requires IsInt64(requested) && 0 < g.ttlDefault <= g.ttlMax
    ensures ClampTtl(requested, g).None? <==> requested < 0
    ensures requested == 0 ==> ClampTtl(requested, g) == Some(g.ttlDefault)
    ensures requested > 0 ==>
              (ClampTtl(requested, g).value == if requested * SECOND <= g.ttlMax then requested * SECOND else g.ttlMax - g.ttlMax % SECOND)
    ensures requested >= 0 ==> 0 <= ClampTtl(requested, g).value <= g.ttlMax
    ensures requested >= 0 ==> (ClampTtl(requested, g).value == 0 <==> requested > 0 && g.ttlMax < SECOND)
  {
    var m := g.ttlMax / SECOND;
    assert m * SECOND <= g.ttlMax < (m + 1) * SECOND;
    assert requested <= m ==> requested * SECOND <= m * SECOND;
    assert requested > m ==> requested * SECOND >= (m + 1) * SECOND;
  }

  /** time.Time.Sub saturates. */
  function SubTime(a: int, b: int): Duration {
    var d := a - b;
    if d > MAX_INT64 then MAX_INT64 else if d < -MAX_INT64 - 1 then -MAX_INT64 - 1 else d
  }

  /** The upstream clamp of issuance: only a still-future upstream expiry shortens the lease. */
  function ClampUpstream(ttl: Duration, upstream: Option<int>, now: int): Duration {
    if upstream.None? then ttl
    else
      var capped := SubTime(upstream.value, now);
      if capped > 0 && capped < ttl then capped else ttl
  }

  // ----- Events -----

  type Rid = nat

  /** The signed events, by type, with the facts the handlers attest; a denial is aggregated when it
      stands for a throttled subject. */
  datatype Event =
    | Issued(rid: Rid, sub: Subject, id: string, scope: string, expires: int, hash: string)
    | Renewed(rid: Rid, sub: Subject, id: string, scope: string, expires: int, hash: string)
    | Surrendered(rid: Rid, sub: Subject, id: string, scope: string, hash: string)
    | Expired(rid: Rid, sub: Subject, id: string, scope: string, expires: int, hash: string)
    | Denied(rid: Rid, sub: Subject, aggregated: bool, hash: string)
    | ClaimRecorded(rid: Rid, sub: Subject)
    | AuthFailed(rid: Rid, source: string)

  predicate IsLeaseEvent(e: Event) {
    e.Issued? || e.Renewed? || e.Surrendered? || e.Expired?
  }

  // ----- Requests in flight -----

  /** When a request began: the policy then in force, and the clock. */
  datatype Span = Span(pol: nat, clock: int)

  datatype Req =
    // POST /v1/leases
    | CreateBegun(sub: Subject, scope: string, asked: int, from: Span)
    | CreateAdmit(sub: Subject, scope: string, asked: int, from: Span, pol: nat)
    | CreateCheck(sub: Subject, scope: string, asked: int, from: Span, pol: nat)
    | CreateDeny(sub: Subject, pol: nat)
    | CreateFetch(sub: Subject, scope: string, from: Span, pol: nat, checkedAt: int, grant: Grant, ttl: Duration)
    | CreateStore(sub: Subject, scope: string, from: Span, pol: nat, checkedAt: int, grant: Grant, ttl: Duration, upstream: Option<int>, clampedAt: int)
    | CreateBuild(sub: Subject, scope: string, from: Span, pol: nat, checkedAt: int, id: string)
    | CreateEmit(sub: Subject, scope: string, from: Span, pol: nat, checkedAt: int, id: string, expires: int)
    | CreateUndo(id: string)
    | CreateReply(sub: Subject, scope: string, from: Span, pol: nat, checkedAt: int, id: string)
    // POST /v1/leases/{id}/renew
    | RenewAdmit(sub: Subject, id: string, asked: int)
    | RenewGet(sub: Subject, id: string, asked: int)
    | RenewPolicy(sub: Subject, asked: int, copy: Lease)
    | RenewStore(sub: Subject, pol: nat, ttl: Duration, copy: Lease)
    | RenewEmit(sub: Subject, pol: nat, copy: Lease)
    | RenewKill(id: string)
    // DELETE /v1/leases/{id}
    | SurrenderAdmit(sub: Subject, id: string)
    | SurrenderGet(sub: Subject, id: string)
    | SurrenderHash(sub: Subject, copy: Lease)
    | SurrenderEmit(sub: Subject, pol: nat, copy: Lease)
    | SurrenderMark(id: string)
    // POST /v1/claims
    | ClaimsAdmit(sub: Subject, n: nat)
    | ClaimsCheck(sub: Subject, n: nat)
    | ClaimsEmit(sub: Subject, n: nat)
    // a throttled request, and a failed authentication
    | Throttled(sub: Subject)
    | ThrottleEmit(sub: Subject, pol: nat)
    | AuthAsk(source: string)
    | AuthEmit(source: string)
    // SweepExpiredLeases
    | SweepBegun(retain: int)
    | SweepTable(retain: int, pol: nat)
    | SweepEmit(left: seq<Lease>, pol: nat)

  // ----- The shared world -----

  /** The last store write of a lease: when it happened and for which request, the policy consulted
      for it and the newest one then, and for an issuance the upstream expiry and the clock the clamp
      read. */
  datatype Write = Write(at: int, rid: Rid, pol: nat, to: nat, issued: bool, upstream: Option<int>, clampedAt: int)

  /** A response that disclosed a secret: the request's policy span, and how long the stream was. */
  datatype Reply = Reply(rid: Rid, sub: Subject, scope: string, id: string, from: Span, pol: nat, to: nat, checkedAt: int, at: nat)

  /** records holds every lease record ever made, since a handler keeps the pointer Create returned;
      present is the key set of the table. policies are the policies put in force, oldest first.
      writes and replies are history. */
  datatype World = World(
    clock: int,
    records: map<string, Lease>, present: set<string>,
    stream: seq<Event>, policies: seq<Policy>,
    writes: map<string, Write>, replies: seq<Reply>)

  function Table(w: World): LeaseStore.Table {
    map id | id in w.present && id in w.records :: w.records[id]
  }

  /** The index of the policy in force. */
  function Newest(w: World): nat {
    if w.policies == [] then 0 else |w.policies| - 1
  }

  /** The policy with a given index; before the first one, a policy that grants nothing. */
  function PolicyAt(w: World, k: nat): Policy {
    if k < |w.policies| then w.policies[k] else Policy([], [], "", map[], map[])
  }

  /** The expiry of a record, read through the pointer Create returned. */
  function ExpiryOf(w: World, id: string): int {
    if id in w.records then w.records[id].expiresAt else 0
  }

  // ----- Effects -----

  /** What a step does to the lease table. */
  datatype Change =
    | Nothing
    | Puts(lease: Lease, write: Write)
    | Removes(id: string)
    | Marks(id: string)
    | Sweeps(now: int, retain: int)

  /** Which limiter a step asked. */
  datatype Asked = Nobody | LeaseLimiter(key: string) | ClaimLimiter(key: string) | ThrottleLimiter(key: string) | AuthLimiter(key: string)

  /** next is None when the handler has returned. */
  datatype Effect = Effect(next: Option<Req>, change: Change, events: seq<Event>, replies: seq<Reply>, asked: Asked)

  function Goes(q: Req): Effect {
    Effect(Some(q), Nothing, [], [], Nobody)
  }

  const RETURNS := Effect(None, Nothing, [], [], Nobody)

  /** A best-effort emission: written or not, the request goes on. */
  function Best(ok: bool, e: Event): seq<Event> {
    if ok then [e] else []
  }

  /** The records after a change, deleted ones included. */
  function RecordsAfter(w: World, ch: Change): map<string, Lease> {
    match ch
    case Nothing => w.records
    case Removes(_) => w.records
    case Puts(l, _) => w.records[l.id := l]
    case Marks(id) => w.records + LeaseStore.AfterSurrender(Table(w), id)
    case Sweeps(now, _) => map id | id in w.records :: if id in w.present then LeaseStore.Swept(w.records[id], now) else w.records[id]
  }

  function PresentAfter(w: World, ch: Change): set<string> {
    match ch
    case Nothing => w.present
    case Removes(id) => w.present - {id}
    case Puts(l, _) => w.present + {l.id}
    case Marks(_) => w.present
    case Sweeps(now, retain) => LeaseStore.AfterSweep(Table(w), now, retain).Keys
  }

  function Apply(w: World, clock: int, e: Effect): World {
    World(clock, RecordsAfter(w, e.change), PresentAfter(w, e.change), w.stream + e.events, w.policies,
          if e.change.Puts? then w.writes[e.change.lease.id := e.change.write] else w.writes, w.replies + e.replies)
  }

  // ----- One step of each handler -----

  datatype Fetch = NoProvider | FetchFailed | Fetched(expiresAt: Option<int>)

  /** What the environment contributes to one step: two clock readings, whether the limiter or the
      audit write said yes, whether the request body is refused, what the provider answered, and
      the random id, provider semantics and iteration order drawn. */
  datatype Input = Input(t: int, t2: int, ok: bool, refused: bool, fetch: Fetch, id: string, semantics: string, out: seq<Lease>)

  /** handleLeaseCreate */
  function CreateStep(c: Config, w: World, rid: Rid, q: Req, x: Input): Effect
    requires IsCreate(q)
  {
    match q
    case CreateBegun(sub, scope, asked, from) => Goes(CreateAdmit(sub, scope, asked, from, Newest(w)))
    case CreateAdmit(sub, scope, asked, from, pol) =>
      Goes(if x.ok then CreateCheck(sub, scope, asked, from, pol) else Throttled(sub)).(asked := LeaseLimiter(Key(sub)))
    case CreateCheck(sub, scope, asked, from, pol) =>
      if x.refused then RETURNS
      else
        var grant := GrantOf(PolicyAt(w, pol), Key(sub), scope);
        if grant.None? || !WindowOpen(c.sched, grant.value, x.t) then Goes(CreateDeny(sub, pol))
        else
          var ttl := ClampTtl(asked, grant.value);
          if ttl.None? then RETURNS
          else if x.fetch.NoProvider? then Goes(CreateDeny(sub, pol))
          else Goes(CreateFetch(sub, scope, from, pol, x.t, grant.value, ttl.value))
    case CreateDeny(sub, pol) => RETURNS.(events := Best(x.ok, Denied(rid, sub, false, PolicyAt(w, pol).hash)))
    case CreateFetch(sub, scope, from, pol, checkedAt, grant, ttl) =>
      if !x.fetch.Fetched? then Goes(CreateDeny(sub, pol))
      else
        var up := x.fetch.expiresAt;
        Goes(CreateStore(sub, scope, from, pol, checkedAt, grant, ClampUpstream(ttl, up, x.t), up, x.t))
    case CreateStore(sub, scope, from, pol, checkedAt, grant, ttl, upstream, clampedAt) =>
      var l := LeaseStore.NewLease(x.id, Key(sub), scope, x.semantics, ttl, grant.renewable, x.t);
      Goes(CreateBuild(sub, scope, from, pol, checkedAt, x.id)).(change := Puts(l, Write(x.t, rid, pol, Newest(w), true, upstream, clampedAt)))
    case CreateBuild(sub, scope, from, pol, checkedAt, id) =>
      Goes(CreateEmit(sub, scope, from, pol, checkedAt, id, WholeSeconds(ExpiryOf(w, id))))
    case CreateEmit(sub, scope, from, pol, checkedAt, id, expires) =>
      if x.ok
      then Goes(CreateReply(sub, scope, from, pol, checkedAt, id)).(events := [Issued(rid, sub, id, scope, expires, PolicyAt(w, pol).hash)])
      else Goes(CreateUndo(id))
    case CreateUndo(id) => RETURNS.(change := Removes(id))
    case CreateReply(sub, scope, from, pol, checkedAt, id) =>
      RETURNS.(replies := [Reply(rid, sub, scope, id, from, pol, Newest(w), checkedAt, |w.stream|)])
  }

  /** handleLeaseRenew */
  function RenewStep(w: World, rid: Rid, q: Req, x: Input): Effect
    requires IsRenew(q)
  {
    match q
    case RenewAdmit(sub, id, asked) =>
      Goes(if x.ok then RenewGet(sub, id, asked) else Throttled(sub)).(asked := LeaseLimiter(Key(sub)))
    case RenewGet(sub, id, asked) =>
      var t := Table(w);
      if id !in t || t[id].subjectKey != Key(sub) then RETURNS else Goes(RenewPolicy(sub, asked, t[id]))
    case RenewPolicy(sub, asked, copy) =>
      var pol := Newest(w);
      var grant := GrantOf(PolicyAt(w, pol), Key(sub), copy.scope);
      if grant.None? || !grant.value.renewable || x.refused then RETURNS
      else
        var ttl := ClampTtl(asked, grant.value);
        if ttl.None? then RETURNS else Goes(RenewStore(sub, pol, ttl.value, copy))
    case RenewStore(sub, pol, ttl, copy) =>
      var r := LeaseStore.RenewCheck(Table(w), copy.id, x.t, ttl, x.t2);
      if !r.Renewed? then RETURNS
      else Goes(RenewEmit(sub, pol, r.lease)).(change := Puts(r.lease, Write(x.t2, rid, pol, Newest(w), false, None, x.t2)))
    case RenewEmit(sub, pol, copy) =>
      if x.ok
      then RETURNS.(events := [Renewed(rid, sub, copy.id, copy.scope, WholeSeconds(copy.expiresAt), PolicyAt(w, pol).hash)])
      else Goes(RenewKill(copy.id))
    case RenewKill(id) => RETURNS.(change := Marks(id))
  }

  /** handleLeaseSurrender: emit first, mark afterwards. */
  function SurrenderStep(w: World, rid: Rid, q: Req, x: Input): Effect
    requires IsSurrender(q)
  {
    match q
    case SurrenderAdmit(sub, id) =>
      Goes(if x.ok then SurrenderGet(sub, id) else Throttled(sub)).(asked := LeaseLimiter(Key(sub)))
    case SurrenderGet(sub, id) =>
      var t := Table(w);
      if id !in t || t[id].subjectKey != Key(sub) || t[id].surrendered then RETURNS else Goes(SurrenderHash(sub, t[id]))
    case SurrenderHash(sub, copy) => Goes(SurrenderEmit(sub, Newest(w), copy))
    case SurrenderEmit(sub, pol, copy) =>
      if x.ok
      then Goes(SurrenderMark(copy.id)).(events := [Surrendered(rid, sub, copy.id, copy.scope, PolicyAt(w, pol).hash)])
      else RETURNS
    case SurrenderMark(id) => RETURNS.(change := Marks(id))
  }

  /** SweepExpiredLeases: one table step, then one best-effort event per lease returned. */
  function SweepStep(w: World, rid: Rid, q: Req, x: Input): Effect
    requires IsSweep(q)
  {
    match q
    case SweepBegun(retain) => Goes(SweepTable(retain, Newest(w)))
    case SweepTable(retain, pol) => Goes(SweepEmit(x.out, pol)).(change := Sweeps(x.t, retain))
    case SweepEmit(left, pol) =>
      if left == [] then RETURNS
      else
        var l := left[0];
        var e := Expired(rid, SubjectOfKey(l.subjectKey), l.id, l.scope, WholeSeconds(l.expiresAt), PolicyAt(w, pol).hash);
        Goes(SweepEmit(left[1..], pol)).(events := Best(x.ok, e))
  }

  /** handleClaims, as far as limiter and stream go; rateLimited; recordAuthFailure. */
  function FrontStep(c: Config, w: World, rid: Rid, q: Req, x: Input): Effect
    requires IsFront(q)
  {
    match q
    case ClaimsAdmit(sub, n) => Goes(if x.ok then ClaimsCheck(sub, n) else Throttled(sub)).(asked := ClaimLimiter(Key(sub)))
    case ClaimsCheck(sub, n) => if n == 0 || n > c.maxClaims || x.refused then RETURNS else Goes(ClaimsEmit(sub, n))
    case ClaimsEmit(sub, n) =>
      if n == 0 || !x.ok then RETURNS else Goes(ClaimsEmit(sub, n - 1)).(events := [ClaimRecorded(rid, sub)])
    case Throttled(sub) =>
      (if x.ok then Goes(ThrottleEmit(sub, Newest(w))) else RETURNS).(asked := ThrottleLimiter(Key(sub)))
    case ThrottleEmit(sub, pol) => RETURNS.(events := Best(x.ok, Denied(rid, sub, true, PolicyAt(w, pol).hash)))
    case AuthAsk(source) => (if x.ok then Goes(AuthEmit(source)) else RETURNS).(asked := AuthLimiter(source))
    case AuthEmit(source) => RETURNS.(events := Best(x.ok, AuthFailed(rid, source)))
  }

  predicate IsCreate(q: Req) {
    || q.CreateBegun? || q.CreateAdmit? || q.CreateCheck? || q.CreateDeny? || q.CreateFetch?
    || q.CreateStore? || q.CreateBuild? || q.CreateEmit? || q.CreateUndo? || q.CreateReply?
  }

  predicate IsRenew(q: Req) {
    q.RenewAdmit? || q.RenewGet? || q.RenewPolicy? || q.RenewStore? || q.RenewEmit? || q.RenewKill?
  }

  predicate IsSurrender(q: Req) {
    q.SurrenderAdmit? || q.SurrenderGet? || q.SurrenderHash? || q.SurrenderEmit? || q.SurrenderMark?
  }

  predicate IsSweep(q: Req) {
    q.SweepBegun? || q.SweepTable? || q.SweepEmit?
  }

  predicate IsFront(q: Req) {
    !IsCreate(q) && !IsRenew(q) && !IsSurrender(q) && !IsSweep(q)
  }

  function EffectOf(c: Config, w: World, rid: Rid, q: Req, x: Input): Effect {
    if IsCreate(q) then CreateStep(c, w, rid, q, x)
    else if IsRenew(q) then RenewStep(w, rid, q, x)
    else if IsSurrender(q) then SurrenderStep(w, rid, q, x)
    else if IsSweep(q) then SweepStep(w, rid, q, x)
    else FrontStep(c, w, rid, q, x)
  }

  // ----- The machine -----

  /** The constants of a deployment: limiter settings, batch limit, the cron library. */
  datatype Config = Config(
    leaseRate: real, leaseBurst: int, claimRate: real, claimBurst: int, maxClaims: nat,
    sched: Schedules, cronOk: string -> bool)

  /** One call of a limiter, the request that made it, and the answer. */
  datatype Entry = Entry(rid: Rid, call: RateLimit.Call, ok: bool)

  /** The calls each limiter has seen. */
  datatype Logs = Logs(lease: seq<Entry>, claim: seq<Entry>, throttle: seq<Entry>, auth: seq<Entry>)

  /** The step that started a request, the policy then in force and the clock. */
  datatype Start = Start(step: Step, pol: nat, clock: int)

  /** starts is history: how each request began. */
  datatype State = State(w: World, inflight: map<Rid, Req>, begun: set<Rid>, logs: Logs, starts: map<Rid, Start>)

  datatype Step =
    | BeginCreate(rid: Rid, sub: Subject, scope: string, asked: int)
    | BeginRenew(rid: Rid, sub: Subject, id: string, asked: int)
    | BeginSurrender(rid: Rid, sub: Subject, id: string)
    | BeginClaims(rid: Rid, sub: Subject, n: nat)
    | BeginSweep(rid: Rid, retain: int)
    | BeginAuthFailure(rid: Rid, source: string)
    | Reload(p: Policy)
    | Take(rid: Rid, x: Input)

  /** The request a Begin step starts. */
  function FirstReq(w: World, step: Step): Req
    requires !step.Reload? && !step.Take?
  {
    match step
    case BeginCreate(rid, sub, scope, asked) => CreateBegun(sub, scope, asked, Span(Newest(w), w.clock))
    case BeginRenew(rid, sub, id, asked) => RenewAdmit(sub, id, asked)
    case BeginSurrender(rid, sub, id) => SurrenderAdmit(sub, id)
    case BeginClaims(rid, sub, n) => ClaimsAdmit(sub, n)
    case BeginSweep(rid, retain) => SweepBegun(retain)
    case BeginAuthFailure(rid, source) => AuthAsk(source)
  }

  function Logged(logs: Logs, rid: Rid, asked: Asked, t: int, ok: bool): Logs {
    match asked
    case Nobody => logs
    case LeaseLimiter(key) => logs.(lease := logs.lease + [Entry(rid, RateLimit.Call(key, t), ok)])
    case ClaimLimiter(key) => logs.(claim := logs.claim + [Entry(rid, RateLimit.Call(key, t), ok)])
    case ThrottleLimiter(key) => logs.(throttle := logs.throttle + [Entry(rid, RateLimit.Call(key, t), ok)])
    case AuthLimiter(key) => logs.(auth := logs.auth + [Entry(rid, RateLimit.Call(key, t), ok)])
  }

  function Moved(inflight: map<Rid, Req>, rid: Rid, next: Option<Req>): map<Rid, Req> {
    if next.Some? then inflight[rid := next.value] else inflight - {rid}
  }

  function Next(c: Config, s: State, step: Step): State {
    match step
    case Reload(p) => s.(w := s.w.(policies := s.w.policies + [p]))
    case Take(rid, x) =>
      if rid !in s.inflight then s
      else
        var e := EffectOf(c, s.w, rid, s.inflight[rid], x);
        State(Apply(s.w, x.t2, e), Moved(s.inflight, rid, e.next), s.begun, Logged(s.logs, rid, e.asked, x.t, x.ok), s.starts)
    case _ =>
      s.(inflight := s.inflight[step.rid := FirstReq(s.w, step)], begun := s.begun + {step.rid},
         starts := s.starts[step.rid := Start(step, Newest(s.w), s.w.clock)])
  }

  /** The clock never goes back, lease ids are fresh, a sweep returns what the table says. */
  ghost predicate InputOk(w: World, q: Req, x: Input) {
    && w.clock <= x.t <= x.t2
    && (q.CreateStore? ==> x.id !in w.records)
    && (q.SweepTable? ==> LeaseStore.SweepReturns(Table(w), x.t, x.out))
  }

  /** Request ids are fresh, and only parsed policies, with hashes that do not collide, come into
      force. The limiters may say anything. */
  ghost predicate Possible(c: Config, s: State, step: Step) {
    match step
    case Reload(p) =>
      Parsed(p, c.cronOk) && forall k | 0 <= k < |s.w.policies| :: s.w.policies[k].hash == p.hash ==> s.w.policies[k] == p
    case Take(rid, x) => rid in s.inflight && InputOk(s.w, s.inflight[rid], x)
    case BeginCreate(rid, _, _, asked) => rid !in s.begun && IsInt64(asked)
    case BeginRenew(rid, _, _, asked) => rid !in s.begun && IsInt64(asked)
    case _ => step.rid !in s.begun
  }

  /** A broker that has just started: one policy in force and nothing else. */
  ghost predicate Init(c: Config, s: State) {
    && s.w.records == map[] && s.w.present == {} && s.w.stream == [] && s.w.writes == map[] && s.w.replies == []
    && |s.w.policies| == 1 && Parsed(s.w.policies[0], c.cronOk)
    && s.inflight == map[] && s.begun == {} && s.logs == Logs([], [], [], []) && s.starts == map[]
  }

  ghost predicate IsRun(c: Config, s: State, steps: seq<Step>)
    decreases |steps|
  {
    steps == [] || (Possible(c, s, steps[0]) && IsRun(c, Next(c, s, steps[0]), steps[1..]))
  }

  function Run(c: Config, s: State, steps: seq<Step>): State
    decreases |steps|
  {
    if steps == [] then s else Run(c, Next(c, s, steps[0]), steps[1..])
  }
}
