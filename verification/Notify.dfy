/** The notify proxy (internal/notify/server.go and ha.go): every call to Home Assistant is leased
    for, allowed by the binary and authorised by the policy. */
module Notify {
  import opened Base
  import opened NotifyPolicy
  import BrokerPolicy = Policy
  import RateLimit

  type Rid = nat

  /** A JSON body: texts, and the map under "data". */
  datatype Value = Text(s: string) | Data(m: map<string, string>)

  datatype HaCall = HaCall(domain: string, service: string, body: map<string, Value>)

  /** The compiled ceiling. */
  predicate HaAllowed(domain: string, service: string) {
    if domain == "notify" then IsServiceName(service)
    else domain == "persistent_notification" && (service == "create" || service == "dismiss")
  }

  const ALLOWED_DATA_KEYS := {"group", "tag", "url"}

  // ----- What a request does -----

  /** The decoded body of one of the three routes; Malformed when decoding failed. */
  datatype Body =
    | Push(title: string, message: string, data: map<string, string>)
    | Create(id: string, title: string, message: string)
    | Dismiss(id: string)
    | Malformed(kind: string)

  datatype Request = Request(sub: BrokerPolicy.Subject, body: Body)

  datatype Lease = Lease(id: string, token: string)

  /** What the limiters, the broker, Home Assistant and the audit stream answer; ha is None when the
      call did not complete. */
  datatype Answers = Answers(rate: bool, sample: bool, lease: Option<Lease>, ha: Option<int>, audit: bool)

  datatype Event =
    | DeniedEvent(kind: string, reason: string, hash: string)
    | ForwardedEvent(kind: string, domain: string, service: string, status: int, delivered: bool, leaseId: string, error: string, hash: string)

  /** What the proxy does to the outside, in order. Called is a Call that passed its own guard. */
  datatype Act =
    | Leased(rid: Rid, lease: Lease)
    | LeaseFailed(rid: Rid)
    | CallRefused(rid: Rid)
    | Called(rid: Rid, token: string, call: HaCall)
    | Wrote(rid: Rid, sub: BrokerPolicy.Subject, event: Event)

  datatype Decision = Deny(kind: string, reason: string) | Send(kind: string, call: HaCall)

  predicate HasPrefix(s: string, prefix: string) {
    prefix <= s
  }

  /** idAllowed */
  predicate IdAllowed(p: Policy, key: string, kind: string, id: string) {
    var g := GrantOf(p, key, kind);
    g.Some? && id != "" && HasPrefix(id, g.value.idPrefix)
  }

  function PushBody(title: string, message: string, data: map<string, string>): map<string, Value> {
    var b := map["title" := Text(title), "message" := Text(message)];
    if data != map[] then b["data" := Data(data)] else b
  }

  /** What the handlers check between the rate limiter and forward. */
  function Decide(p: Policy, q: Request): Decision {
    var key := BrokerPolicy.Key(q.sub);
    match q.body
    case Malformed(kind) => Deny(kind, "bad-body")
    case Push(title, message, data) =>
      if PushTarget(p, key) == "" then Deny(PUSH, "no-grant")
      else if !(data.Keys <= ALLOWED_DATA_KEYS) then Deny(PUSH, "bad-data-key")
      else Send(PUSH, HaCall("notify", PushTarget(p, key), PushBody(title, message, data)))
    case Create(id, title, message) =>
      if !IdAllowed(p, key, CREATE, id) then Deny(CREATE, "no-grant-or-prefix")
      else
        var body := map["notification_id" := Text(id), "title" := Text(title), "message" := Text(message)];
        Send(CREATE, HaCall("persistent_notification", "create", body))
    case Dismiss(id) =>
      if !IdAllowed(p, key, DISMISS, id) then Deny(DISMISS, "no-grant-or-prefix")
      else Send(DISMISS, HaCall("persistent_notification", "dismiss", map["notification_id" := Text(id)]))
  }

  function Best(x: Answers, rid: Rid, sub: BrokerPolicy.Subject, e: Event): seq<Act> {
    if x.audit then [Wrote(rid, sub, e)] else []
  }

  /** What Call returns: a status, or None for its refusal and for a failed transport. */
  function CallResult(x: Answers, c: HaCall): Option<int> {
    if HaAllowed(c.domain, c.service) then x.ha else None
  }

  predicate Delivered(r: Option<int>) {
    r.Some? && 200 <= r.value < 300
  }

  function Forwarded(kind: string, c: HaCall, r: Option<int>, lease: Option<Lease>, hash: string): Event {
    var status := if r.Some? then r.value else 0;
    var id := if lease.Some? then lease.value.id else "";
    var error := if lease.None? then "lease-failed" else if r.None? then "ha-unreachable" else if !Delivered(r) then "ha-status" else "";
    ForwardedEvent(kind, c.domain, c.service, status, Delivered(r), id, error, hash)
  }

  /** forward: lease, one call, one best-effort event. */
  function ForwardActs(p: Policy, rid: Rid, sub: BrokerPolicy.Subject, kind: string, c: HaCall, x: Answers): seq<Act> {
    if x.lease.None? then [LeaseFailed(rid)] + Best(x, rid, sub, Forwarded(kind, c, None, None, p.hash))
    else
      [Leased(rid, x.lease.value)]
      + [if HaAllowed(c.domain, c.service) then Called(rid, x.lease.value.token, c) else CallRefused(rid)]
      + Best(x, rid, sub, Forwarded(kind, c, CallResult(x, c), x.lease, p.hash))
  }

  /** What a request does once the limiter let it in. */
  function AdmittedActs(p: Policy, rid: Rid, q: Request, x: Answers): seq<Act> {
    match Decide(p, q)
    case Deny(kind, reason) => Best(x, rid, q.sub, DeniedEvent(kind, reason, p.hash))
    case Send(kind, c) => ForwardActs(p, rid, q.sub, kind, c, x)
  }

  /** Everything one request does. */
  function Acts(p: Policy, rid: Rid, q: Request, x: Answers): seq<Act> {
    if x.rate then AdmittedActs(p, rid, q, x)
    else if x.sample then Best(x, rid, q.sub, DeniedEvent("", "rate-limited", p.hash))
    else []
  }

  /** The one way to a 201: admitted, sent on, leased for and answered with a 2xx. */
  predicate Succeeds(p: Policy, q: Request, x: Answers) {
    && x.rate && Decide(p, q).Send? && x.lease.Some?
    && Delivered(CallResult(x, Decide(p, q).call))
  }

  // ----- What the policy document authorises -----

  /** A notification id that some declared grant of this kind covers. */
  ghost predicate OwnsId(p: Policy, key: string, kind: string, id: string) {
    exists g :: Declares(p.subjects, key, kind, g) && g.idPrefix != "" && g.idPrefix <= id
  }

  /** Push: the declared grant's first target, and no data key outside the allowlist. */
  ghost predicate PushAuthorised(p: Policy, key: string, c: HaCall) {
    && c.domain == "notify"
    && (exists g :: Declares(p.subjects, key, PUSH, g) && g.targets != [] && c.service == g.targets[0])
    && c.body.Keys <= {"title", "message", "data"}
    && ("data" in c.body ==> c.body["data"].Data? && c.body["data"].m.Keys <= {"group", "tag", "url"})
  }

  /** Create or dismiss: an id that carries the prefix declared for that very kind. */
  ghost predicate IdAuthorised(p: Policy, key: string, kind: string, c: HaCall) {
    && c.domain == "persistent_notification"
    && "notification_id" in c.body && c.body["notification_id"].Text? && OwnsId(p, key, kind, c.body["notification_id"].s)
  }

  ghost predicate Authorised(p: Policy, key: string, c: HaCall) {
    || PushAuthorised(p, key, c)
    || (c.service == "create" && IdAuthorised(p, key, CREATE, c))
    || (c.service == "dismiss" && IdAuthorised(p, key, DISMISS, c))
  }

  /** What the documents say a request needs: a declared grant that covers it. */
  ghost predicate Covered(p: Policy, q: Request) {
    var key := BrokerPolicy.Key(q.sub);
    match q.body
    case Malformed(_) => false
    case Push(_, _, data) => (exists g :: Declares(p.subjects, key, PUSH, g)) && data.Keys <= {"group", "tag", "url"}
    case Create(id, _, _) => OwnsId(p, key, CREATE, id)
    case Dismiss(id) => OwnsId(p, key, DISMISS, id)
  }

  lemma IdAllowedIffOwned(p: Policy, key: string, kind: string, id: string)
    requires Parsed(p) && (kind == CREATE || kind == DISMISS)
    ensures IdAllowed(p, key, kind, id) <==> OwnsId(p, key, kind, id)
  {
    var found := GrantOf(p, key, kind);
    if found.Some? {
      GrantIffDeclared(p, key, kind, found.value);
    }
    if g :| Declares(p.subjects, key, kind, g) && g.idPrefix != "" && g.idPrefix <= id {
      GrantIffDeclared(p, key, kind, g);
    }
  }

  /** A request is sent on exactly when a declared grant covers it. */
  lemma SendsIffCovered(p: Policy, q: Request)
    requires Parsed(p)
    ensures Decide(p, q).Send? <==> Covered(p, q)
  {
    var key := BrokerPolicy.Key(q.sub);
    match q.body
    case Malformed(_) =>
    case Push(_, _, _) => PushTargetIsPinned(p, key);
    case Create(id, _, _) => IdAllowedIffOwned(p, key, CREATE, id);
    case Dismiss(id) => IdAllowedIffOwned(p, key, DISMISS, id);
  }

  lemma PushIsAuthorised(p: Policy, q: Request)
    requires Parsed(p) && q.body.Push? && Decide(p, q).Send?
    ensures var c := Decide(p, q).call; HaAllowed(c.domain, c.service) && PushAuthorised(p, BrokerPolicy.Key(q.sub), c)
  {
    PushTargetIsPinned(p, BrokerPolicy.Key(q.sub));
  }

  lemma IdIsAuthorised(p: Policy, q: Request)
    requires Parsed(p) && (q.body.Create? || q.body.Dismiss?) && Decide(p, q).Send?
    ensures var c := Decide(p, q).call; HaAllowed(c.domain, c.service) && Authorised(p, BrokerPolicy.Key(q.sub), c)
  {
    IdAllowedIffOwned(p, BrokerPolicy.Key(q.sub), if q.body.Create? then CREATE else DISMISS, q.body.id);
  }

  /** Whatever is sent on is allowed by the binary and authorised by the document. */
  lemma SentIsAuthorised(p: Policy, q: Request)
    requires Parsed(p) && Decide(p, q).Send?
    ensures var c := Decide(p, q).call; HaAllowed(c.domain, c.service) && Authorised(p, BrokerPolicy.Key(q.sub), c)
  {
    if q.body.Push? {
      PushIsAuthorised(p, q);
    } else {
      IdIsAuthorised(p, q);
    }
  }

  // ----- Exactly what a request does -----

  /** At most a best-effort event that names the kind and the reason. */
  ghost predicate Denies(acts: seq<Act>, rid: Rid, q: Request, kind: string, reason: string, hash: string, audit: bool) {
    acts == if audit then [Wrote(rid, q.sub, DeniedEvent(kind, reason, hash))] else []
  }

  /** A lease that fails ends it; else the call goes out with the leased token; either way a
      best-effort event says how it went. */
  ghost predicate Forwards(acts: seq<Act>, rid: Rid, q: Request, kind: string, c: HaCall, hash: string, x: Answers) {
    match x.lease
    case None =>
      acts == [LeaseFailed(rid)] + if x.audit then [Wrote(rid, q.sub, ForwardedEvent(kind, c.domain, c.service, 0, false, "", "lease-failed", hash))] else []
    case Some(l) =>
      var status := if x.ha.Some? then x.ha.value else 0;
      var delivered := x.ha.Some? && 200 <= x.ha.value <= 299;
      var error := if delivered then "" else if x.ha.None? then "ha-unreachable" else "ha-status";
      acts == [Leased(rid, l), Called(rid, l.token, c)]
              + if x.audit then [Wrote(rid, q.sub, ForwardedEvent(kind, c.domain, c.service, status, delivered, l.id, error, hash))] else []
  }

  /** The body of a push: title and message as asked for, and the data if there is any. */
  ghost predicate PushSays(b: map<string, Value>, title: string, message: string, data: map<string, string>) {
    && b.Keys == {"title", "message"} + (if data == map[] then {} else {"data"})
    && b["title"] == Text(title) && b["message"] == Text(message) && (data != map[] ==> b["data"] == Data(data))
  }

  lemma PushBodySays(title: string, message: string, data: map<string, string>)
    ensures PushSays(PushBody(title, message, data), title, message, data)
  {
    assert |"title"| == 5 && |"message"| == 7 && |"data"| == 4;
  }

  /** The call a covered request is sent on with, member by member. */
  ghost predicate CallSays(p: Policy, q: Request, kind: string, c: HaCall) {
    match q.body
    case Push(title, message, data) =>
      && kind == PUSH && c.domain == "notify" && PushSays(c.body, title, message, data)
      && exists g :: Declares(p.subjects, BrokerPolicy.Key(q.sub), PUSH, g) && g.targets != [] && c.service == g.targets[0]
    case Create(id, title, message) =>
      && kind == CREATE && c.domain == "persistent_notification" && c.service == "create"
      && c.body.Keys == {"notification_id", "title", "message"}
      && c.body["notification_id"] == Text(id) && c.body["title"] == Text(title) && c.body["message"] == Text(message)
    case Dismiss(id) =>
      && kind == DISMISS && c.domain == "persistent_notification" && c.service == "dismiss"
      && c.body.Keys == {"notification_id"} && c.body["notification_id"] == Text(id)
    case Malformed(_) => false
  }

  lemma SentSays(p: Policy, q: Request)
    requires Parsed(p) && Decide(p, q).Send?
    ensures CallSays(p, q, Decide(p, q).kind, Decide(p, q).call)
  {
    match q.body
    case Push(title, message, data) =>
      PushBodySays(title, message, data);
      SentIsAuthorised(p, q);
    case Create(_, _, _) => assert |"title"| == 5 && |"message"| == 7 && |"notification_id"| == 15;
    case Dismiss(_) =>
  }

  lemma ForwardSays(p: Policy, rid: Rid, q: Request, kind: string, c: HaCall, x: Answers)
    requires HaAllowed(c.domain, c.service)
    ensures Forwards(ForwardActs(p, rid, q.sub, kind, c, x), rid, q, kind, c, p.hash, x)
  {
  }

  /** Why an admitted request is not sent on. */
  ghost predicate DenialSays(p: Policy, q: Request, kind: string, reason: string) {
    match q.body
    case Malformed(k) => kind == k && reason == "bad-body"
    case Push(_, _, _) =>
      kind == PUSH && reason == if exists g :: Declares(p.subjects, BrokerPolicy.Key(q.sub), PUSH, g) then "bad-data-key" else "no-grant"
    case Create(_, _, _) => kind == CREATE && reason == "no-grant-or-prefix"
    case Dismiss(_) => kind == DISMISS && reason == "no-grant-or-prefix"
  }

  /** Everything a request does, for every answer of the limiters, the broker, Home Assistant and the
      audit stream: throttled, denied for the reason that applies, or sent on with exactly what it
      asked for. */
  lemma ActsExactly(p: Policy, rid: Rid, q: Request, x: Answers)
    requires Parsed(p)
    ensures !x.rate ==> Acts(p, rid, q, x) == if x.sample && x.audit then [Wrote(rid, q.sub, DeniedEvent("", "rate-limited", p.hash))] else []
    ensures x.rate && !Covered(p, q) ==>
              exists kind, reason :: DenialSays(p, q, kind, reason) && Denies(Acts(p, rid, q, x), rid, q, kind, reason, p.hash, x.audit)
    ensures x.rate && Covered(p, q) ==>
              exists kind, c :: CallSays(p, q, kind, c) && Forwards(Acts(p, rid, q, x), rid, q, kind, c, p.hash, x)
  {
    SendsIffCovered(p, q);
    if x.rate && Covered(p, q) {
      var d := Decide(p, q);
      SentSays(p, q);
      SentIsAuthorised(p, q);
      ForwardSays(p, rid, q, d.kind, d.call, x);
    }
    if x.rate && !Covered(p, q) {
      DenialIs(p, q);
    }
  }

  lemma DenialIs(p: Policy, q: Request)
    requires Parsed(p) && Decide(p, q).Deny?
    ensures DenialSays(p, q, Decide(p, q).kind, Decide(p, q).reason)
  {
    PushTargetIsPinned(p, BrokerPolicy.Key(q.sub));
  }

  // ----- One request -----

  /** The acts of one request, from the first: the call is authorised, second, and next after the
      lease whose token it carries; nothing was refused inside Call; events tell what happened. */
  ghost predicate Justified(p: Policy, rid: Rid, q: Request, acts: seq<Act>) {
    && |acts| <= 3
    && (forall k | 0 <= k < |acts| :: acts[k].rid == rid && !acts[k].CallRefused?)
    && (forall k | 0 <= k < |acts| && acts[k].Called? ::
          && k == 1 && acts[0].Leased? && acts[0].lease.token == acts[1].token
          && HaAllowed(acts[1].call.domain, acts[1].call.service) && Authorised(p, BrokerPolicy.Key(q.sub), acts[1].call))
    && (forall k | 0 <= k < |acts| && acts[k].Wrote? && acts[k].event.ForwardedEvent? && acts[k].event.delivered ::
          && k == 2 && acts[1].Called? && acts[0].Leased? && acts[2].event.leaseId == acts[0].lease.id
          && acts[2].event.domain == acts[1].call.domain && acts[2].event.service == acts[1].call.service)
    && (forall k | 0 <= k < |acts| && acts[k].Wrote? :: acts[k].sub == q.sub)
  }

  lemma ForwardJustified(p: Policy, rid: Rid, q: Request, kind: string, c: HaCall, x: Answers)
    requires HaAllowed(c.domain, c.service) && Authorised(p, BrokerPolicy.Key(q.sub), c)
    ensures Justified(p, rid, q, ForwardActs(p, rid, q.sub, kind, c, x))
  {
  }

  lemma ActsJustified(p: Policy, rid: Rid, q: Request, x: Answers)
    requires Parsed(p)
    ensures Justified(p, rid, q, Acts(p, rid, q, x))
  {
    if x.rate && Decide(p, q).Send? {
      var d := Decide(p, q);
      SentIsAuthorised(p, q);
      ForwardJustified(p, rid, q, d.kind, d.call, x);
    }
  }

  // ----- All requests at once -----

  /** What request rid did, within a log of everything the proxy did. */
  function Of(log: seq<Act>, rid: Rid): seq<Act> {
    if log == [] then []
    else
      var a := log[|log| - 1];
      Of(log[..|log| - 1], rid) + if a.rid == rid then [a] else []
  }

  /** A run: requests interleave in any way, each has got somewhere in what its handler does. */
  ghost predicate IsRun(p: Policy, log: seq<Act>, requests: Rid -> Request, answers: Rid -> Answers) {
    forall rid: Rid :: Of(log, rid) <= Acts(p, rid, requests(rid), answers(rid))
  }

  /** The acts of one request up to a point of the log come first among all its acts. */
  lemma {:induction false} OfPrefix(log: seq<Act>, n: nat, rid: Rid)
    requires n <= |log|
    ensures Of(log[..n], rid) <= Of(log, rid)
    decreases |log|
  {
    if n < |log| {
      OfPrefix(log[..|log| - 1], n, rid);
      assert log[..|log| - 1][..n] == log[..n];
    } else {
      assert log[..n] == log;
    }
  }

  /** Where act n of the log stands among its request's own acts. */
  lemma Position(log: seq<Act>, n: nat)
    requires n < |log|
    ensures var k := |Of(log[..n], log[n].rid)|;
            k < |Of(log, log[n].rid)| && Of(log, log[n].rid)[k] == log[n]
  {
    var rid := log[n].rid;
    assert log[..n + 1][..n] == log[..n];
    OfPrefix(log, n + 1, rid);
  }

  lemma {:induction false} FirstIsInLog(log: seq<Act>, rid: Rid)
    requires Of(log, rid) != []
    ensures exists m :: 0 <= m < |log| && log[m] == Of(log, rid)[0]
  {
    var n := |log| - 1;
    if Of(log[..n], rid) != [] {
      FirstIsInLog(log[..n], rid);
      var m :| 0 <= m < n && log[..n][m] == Of(log[..n], rid)[0];
      assert log[m] == Of(log, rid)[0];
    } else {
      assert log[n] == Of(log, rid)[0];
    }
  }

  /** The lease act that comes before act n, in the same request and with the same token. */
  ghost predicate LeasedBefore(log: seq<Act>, n: nat)
    requires n < |log| && log[n].Called?
  {
    exists m :: 0 <= m < n && log[m].Leased? && log[m].rid == log[n].rid && log[m].lease.token == log[n].token
  }

  lemma OwnActsJustified(p: Policy, log: seq<Act>, requests: Rid -> Request, answers: Rid -> Answers, rid: Rid)
    requires Parsed(p) && IsRun(p, log, requests, answers)
    ensures Justified(p, rid, requests(rid), Of(log, rid))
  {
    var acts := Acts(p, rid, requests(rid), answers(rid));
    ActsJustified(p, rid, requests(rid), answers(rid));
    assert Of(log, rid) == acts[..|Of(log, rid)|];
  }

  /** In every run of the proxy, each call made follows a successful lease in the same request and
      carries its token, is one the binary allows, and is authorised by the caller's grants; the
      guard inside Call never refuses. */
  lemma EveryCallIsJustified(p: Policy, log: seq<Act>, requests: Rid -> Request, answers: Rid -> Answers, n: nat)
    requires Parsed(p) && IsRun(p, log, requests, answers) && n < |log|
    ensures !log[n].CallRefused?
    ensures log[n].Called? ==>
              && LeasedBefore(log, n) && HaAllowed(log[n].call.domain, log[n].call.service)
              && Authorised(p, BrokerPolicy.Key(requests(log[n].rid).sub), log[n].call)
  {
    var rid := log[n].rid;
    OwnActsJustified(p, log, requests, answers, rid);
    Position(log, n);
    if log[n].Called? {
      OfPrefix(log, n, rid);
      FirstIsInLog(log[..n], rid);
      var m :| 0 <= m < n && log[..n][m] == Of(log[..n], rid)[0];
      assert log[m] == Of(log, rid)[0];
    }
  }

  /** Two positions of one request's acts are different places in its own order. */
  lemma LaterIsLater(log: seq<Act>, m: nat, n: nat)
    requires m < n < |log| && log[m].rid == log[n].rid
    ensures |Of(log[..m], log[m].rid)| < |Of(log[..n], log[n].rid)|
  {
    Position(log[..n], m);
    assert log[..n][..m] == log[..m] && log[..n][m] == log[m];
  }

  /** At most one call per request. */
  lemma OneCallPerRequest(p: Policy, log: seq<Act>, requests: Rid -> Request, answers: Rid -> Answers, m: nat, n: nat)
    requires Parsed(p) && IsRun(p, log, requests, answers)
    requires m < |log| && n < |log| && log[m].Called? && log[n].Called? && log[m].rid == log[n].rid
    ensures m == n
  {
    OwnActsJustified(p, log, requests, answers, log[m].rid);
    Position(log, m);
    Position(log, n);
    if m < n {
      LaterIsLater(log, m, n);
    } else if n < m {
      LaterIsLater(log, n, m);
    }
  }

  // ----- The handlers -----

  /** The loop over the data keys, in any order; stops at the first that is not allowed. */
  method DataKeysAllowed(data: map<string, string>) returns (ok: bool)
    ensures ok <==> data.Keys <= ALLOWED_DATA_KEYS
  {
    var left := data.Keys;
    while left != {}
      invariant left <= data.Keys && data.Keys - left <= ALLOWED_DATA_KEYS
      decreases |left|
    {
      var k :| k in left;
      if k !in ALLOWED_DATA_KEYS {
        return false;
      }
      left := left - {k};
    }
    return true;
  }

  method Ask(l: RateLimit.Limiter, key: string, t: int) returns (ok: bool)
    requires l.Valid()
    modifies l
    ensures l.Valid() && l.calls == old(l.calls) + [RateLimit.Call(key, t)]
    ensures ok == RateLimit.Verdict(l.params, l.calls, |l.calls| - 1)
  {
    ok := l.Allow(key, t);
  }

  class Proxy {
    const policy: Policy
    const limiter: RateLimit.Limiter
    const rlAudit: RateLimit.Limiter
    var log: seq<Act>

    ghost predicate Valid()
      reads this, limiter, rlAudit
    {
      limiter != rlAudit && limiter.Valid() && rlAudit.Valid()
    }

    constructor (policy: Policy, rate: real, burst: int)
      ensures Valid() && log == [] && this.policy == policy && fresh(limiter) && fresh(rlAudit)
    {
      this.policy := policy;
      limiter := new RateLimit.Limiter(rate, burst);
      rlAudit := new RateLimit.Limiter(1.0, 1);
      log := [];
    }

    /** A best-effort emission. */
    method Emit(rid: Rid, sub: BrokerPolicy.Subject, e: Event, ok: bool)
      modifies this`log
      ensures log == old(log) + if ok then [Wrote(rid, sub, e)] else []
    {
      if ok {
        log := log + [Wrote(rid, sub, e)];
      }
    }

    /** rateOK: a throttled caller leaves at most a sampled event. */
    method RateOk(rid: Rid, sub: BrokerPolicy.Subject, t: int, audit: bool) returns (ok: bool, sample: bool)
      requires Valid()
      modifies this`log, limiter, rlAudit
      ensures Valid() && limiter.calls == old(limiter.calls) + [RateLimit.Call(BrokerPolicy.Key(sub), t)]
      ensures ok == RateLimit.Verdict(limiter.params, limiter.calls, |limiter.calls| - 1)
      ensures ok ==> rlAudit.calls == old(rlAudit.calls) && log == old(log)
      ensures !ok ==>
                && rlAudit.calls == old(rlAudit.calls) + [RateLimit.Call(BrokerPolicy.Key(sub), t)]
                && sample == RateLimit.Verdict(rlAudit.params, rlAudit.calls, |rlAudit.calls| - 1)
                && log == old(log) + if sample && audit then [Wrote(rid, sub, DeniedEvent("", "rate-limited", policy.hash))] else []
    {
      sample := false;
      ok := Ask(limiter, BrokerPolicy.Key(sub), t);
      if ok {
        return;
      }
      var sampled := Ask(rlAudit, BrokerPolicy.Key(sub), t);
      sample := sampled;
      if sampled {
        Emit(rid, sub, DeniedEvent("", "rate-limited", policy.hash), audit);
      }
    }

    /** Call: the guard at its head, then the request. */
    method Call(rid: Rid, token: string, c: HaCall, ha: Option<int>) returns (r: Option<int>)
      modifies this`log
      ensures if HaAllowed(c.domain, c.service) then r == ha && log == old(log) + [Called(rid, token, c)]
              else r == None && log == old(log) + [CallRefused(rid)]
    {
      if !HaAllowed(c.domain, c.service) {
        log := log + [CallRefused(rid)];
        return None;
      }
      log := log + [Called(rid, token, c)];
      return ha;
    }

    method Forward(rid: Rid, sub: BrokerPolicy.Subject, kind: string, c: HaCall, x: Answers) returns (status: int)
      modifies this`log
      ensures log == old(log) + ForwardActs(policy, rid, sub, kind, c, x)
      ensures status == 201 <==> x.lease.Some? && HaAllowed(c.domain, c.service) && Delivered(x.ha)
      ensures status == 201 || status == 502
    {
      if x.lease.None? {
        log := log + [LeaseFailed(rid)];
        Emit(rid, sub, ForwardedEvent(kind, c.domain, c.service, 0, false, "", "lease-failed", policy.hash), x.audit);
        return 502;
      }
      log := log + [Leased(rid, x.lease.value)];
      var r := Call(rid, x.lease.value.token, c, x.ha);
      var delivered := r.Some? && 200 <= r.value < 300;
      var error := "";
      if r.None? {
        error := "ha-unreachable";
      } else if !delivered {
        error := "ha-status";
      }
      var code := if r.Some? then r.value else 0;
      Emit(rid, sub, ForwardedEvent(kind, c.domain, c.service, code, delivered, x.lease.value.id, error, policy.hash), x.audit);
      return if delivered then 201 else 502;
    }

    /** What every handler leaves behind; the two limiters alone decide rate and sample. */
    twostate predicate Served(rid: Rid, q: Request, t: int, x: Answers, status: int)
      requires old(Valid())
      reads this, limiter, rlAudit
    {
      var asked := [RateLimit.Call(BrokerPolicy.Key(q.sub), t)];
      && Valid() && limiter.calls == old(limiter.calls) + asked
      && var rate := RateLimit.Verdict(limiter.params, limiter.calls, |limiter.calls| - 1);
      && rlAudit.calls == old(rlAudit.calls) + (if rate then [] else asked)
      && var x' := x.(rate := rate, sample := !rate && RateLimit.Verdict(rlAudit.params, rlAudit.calls, |rlAudit.calls| - 1));
      && log == old(log) + Acts(policy, rid, q, x')
      && (status == 201 <==> Succeeds(policy, q, x'))
    }

    /** deny: a best-effort event and the given status. */
    method Refuse(rid: Rid, sub: BrokerPolicy.Subject, kind: string, reason: string, code: int, audit: bool) returns (status: int)
      modifies this`log
      ensures log == old(log) + (if audit then [Wrote(rid, sub, DeniedEvent(kind, reason, policy.hash))] else []) && status == code
    {
      Emit(rid, sub, DeniedEvent(kind, reason, policy.hash), audit);
      return code;
    }

    method PushAdmitted(rid: Rid, sub: BrokerPolicy.Subject, req: Option<Body>, x: Answers) returns (status: int)
      requires (req.Some? ==> req.value.Push?) && x.rate
      modifies this`log
      ensures var q := Request(sub, if req.Some? then req.value else Malformed(PUSH));
              log == old(log) + AdmittedActs(policy, rid, q, x) && (status == 201 <==> Succeeds(policy, q, x))
    {
      if req.None? {
        status := Refuse(rid, sub, PUSH, "bad-body", 400, x.audit);
        return;
      }
      var target := PushTarget(policy, BrokerPolicy.Key(sub));
      if target == "" {
        status := Refuse(rid, sub, PUSH, "no-grant", 403, x.audit);
        return;
      }
      var keysOk := DataKeysAllowed(req.value.data);
      if !keysOk {
        status := Refuse(rid, sub, PUSH, "bad-data-key", 400, x.audit);
        return;
      }
      var body := map["title" := Text(req.value.title), "message" := Text(req.value.message)];
      if req.value.data != map[] {
        body := body["data" := Data(req.value.data)];
      }
      status := Forward(rid, sub, PUSH, HaCall("notify", target, body), x);
    }

    method CreateAdmitted(rid: Rid, sub: BrokerPolicy.Subject, req: Option<Body>, x: Answers) returns (status: int)
      requires (req.Some? ==> req.value.Create?) && x.rate
      modifies this`log
      ensures var q := Request(sub, if req.Some? then req.value else Malformed(CREATE));
              log == old(log) + AdmittedActs(policy, rid, q, x) && (status == 201 <==> Succeeds(policy, q, x))
    {
      if req.None? {
        status := Refuse(rid, sub, CREATE, "bad-body", 400, x.audit);
        return;
      }
      if !IdAllowed(policy, BrokerPolicy.Key(sub), CREATE, req.value.id) {
        status := Refuse(rid, sub, CREATE, "no-grant-or-prefix", 403, x.audit);
        return;
      }
      var body := map["notification_id" := Text(req.value.id), "title" := Text(req.value.title), "message" := Text(req.value.message)];
      status := Forward(rid, sub, CREATE, HaCall("persistent_notification", "create", body), x);
    }

    method DismissAdmitted(rid: Rid, sub: BrokerPolicy.Subject, req: Option<Body>, x: Answers) returns (status: int)
      requires (req.Some? ==> req.value.Dismiss?) && x.rate
      modifies this`log
      ensures var q := Request(sub, if req.Some? then req.value else Malformed(DISMISS));
              log == old(log) + AdmittedActs(policy, rid, q, x) && (status == 201 <==> Succeeds(policy, q, x))
    {
      if req.None? {
        status := Refuse(rid, sub, DISMISS, "bad-body", 400, x.audit);
        return;
      }
      if !IdAllowed(policy, BrokerPolicy.Key(sub), DISMISS, req.value.id) {
        status := Refuse(rid, sub, DISMISS, "no-grant-or-prefix", 403, x.audit);
        return;
      }
      status := Forward(rid, sub, DISMISS, HaCall("persistent_notification", "dismiss", map["notification_id" := Text(req.value.id)]), x);
    }

    method HandlePush(rid: Rid, sub: BrokerPolicy.Subject, req: Option<Body>, t: int, x: Answers) returns (status: int)
      requires Valid() && (req.Some? ==> req.value.Push?)
      modifies this`log, limiter, rlAudit
      ensures Served(rid, Request(sub, if req.Some? then req.value else Malformed(PUSH)), t, x, status)
    {
      var ok, _ := RateOk(rid, sub, t, x.audit);
      if !ok {
        return 429;
      }
      status := PushAdmitted(rid, sub, req, x.(rate := true, sample := false));
    }

    method HandlePersistentCreate(rid: Rid, sub: BrokerPolicy.Subject, req: Option<Body>, t: int, x: Answers) returns (status: int)
      requires Valid() && (req.Some? ==> req.value.Create?)
      modifies this`log, limiter, rlAudit
      ensures Served(rid, Request(sub, if req.Some? then req.value else Malformed(CREATE)), t, x, status)
    {
      var ok, _ := RateOk(rid, sub, t, x.audit);
      if !ok {
        return 429;
      }
      status := CreateAdmitted(rid, sub, req, x.(rate := true, sample := false));
    }

    method HandlePersistentDismiss(rid: Rid, sub: BrokerPolicy.Subject, req: Option<Body>, t: int, x: Answers) returns (status: int)
      requires Valid() && (req.Some? ==> req.value.Dismiss?)
      modifies this`log, limiter, rlAudit
      ensures Served(rid, Request(sub, if req.Some? then req.value else Malformed(DISMISS)), t, x, status)
    {
      var ok, _ := RateOk(rid, sub, t, x.audit);
      if !ok {
        return 429;
      }
      status := DismissAdmitted(rid, sub, req, x.(rate := true, sample := false));
    }
  }
}
