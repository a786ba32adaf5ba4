# Credential broker: a verified model

The broker leases credentials to Kubernetes workloads. It promises that no secret leaves without a
signed record, that no lease outlives its grant, that the signed stream cannot be flooded by one
workload, and that an auditor can tell which records are missing. This project models the code
behind those promises in Dafny and proves them for every run, interleaving and input.

The parts, one module each:

| module | models |
|---|---|
| `Base`, `Strings`, `Sorting` | int64 arithmetic, whole-second formatting, Go string functions, a stable sort |
| `RateLimit`, `ByteBudget` | the token bucket and the daily byte budget, as classes over their maps |
| `LeaseStore` | the in-memory lease table, as a class, and its histories |
| `Policy`, `Watcher` | policy validation and indices, issue windows, subject keys; hot reload and its reports |
| `GitHub` | the permission and repository grammars and the provider's fail-closed mapping |
| `Json`, `Audit`, `SeqAnalysis`, `Verifier` | canonical JSON (section 3.2.3 of RFC 8785), the emitter, `Verify`, the offline verifier |
| `Broker` | the lease protocol as a machine: each separately locked step of each handler is a transition |
| `BrokerFacts`, `BrokerAudit`, `BrokerStarts`, `BrokerExpiry`, `BrokerFlood`, `BrokerCauses` | what holds in every run of that machine |
| `BrokerSolo`, `BrokerSoloCreate`, `BrokerSoloRest` | what each handler does from start to end when nothing interferes, against a reference written as one decision |
| `BrokerWords`, `BrokerSurrender`, `BrokerConflicts`, `BrokerDiscipline`, `BrokerOverlap` | the order of a lease's events: when it is kept, when it breaks, and that the one is exactly the negation of the other |
| `Claims` | the claims handler, and all claims requests interleaved |
| `NotifyPolicy`, `Notify` | the notify proxy: its policy, its handlers and every outbound call |
| `Regex` | the load-time patterns as regular expressions, and the documents both loaders accept |

## How the lease protocol is modelled

A request in flight is a value of `Broker.Req`: the step it is about to take and the local variables
it holds. A step reads the shared world (lease records, table, event stream, policies, clock) and
yields an effect on it. `Broker.Next` applies one step of one request, starts a request, or puts a
reloaded policy in force; `Broker.IsRun` allows these in any order, so every interleaving of create,
renew, surrender, claims, sweep, throttling and reload is a run. Each audit write, limiter answer and
provider answer is an arbitrary input of its step. Lease ids are fresh, request ids are fresh, the
clock does not go back, policy hashes do not collide, and only policies that `Parse` accepts come
into force; nothing else is assumed. The flood bound adds that each limiter answers as the token
bucket does.

A record that was removed from the table stays in `records`, because the create handler keeps the
pointer that `Create` returned and reads the expiry through it after the lock is released.

## Where the code and a natural promise part ways

- One `lease.surrendered` per lease is not always kept: Get, Emit and mark of a DELETE are three
  separate steps. `BrokerDiscipline.OnceIffOneDelete` gives the exact condition: under any discipline
  of starting requests, a lease is never surrendered twice if and only if no two DELETEs of it are
  ever between Get and mark together.
- Nor is the order issued, renewed, expired, surrendered. `BrokerDiscipline.OrderIffApart`: it is kept
  in all runs of a discipline if and only if no two requests ever conflict on the lease, where two
  requests conflict when both have read or written it and not settled what the stream says about it
  (any pair of a create, a renewal, a DELETE and a sweep but two renewals). Requests on other leases,
  and overlap as such, do not matter. `BrokerOverlap` writes out the runs from startup that end in
  issued surrendered surrendered, issued surrendered renewed and issued surrendered expired.
- The emitter's comment says a failed write leaves no gap that the verifier would misread as a
  deletion. It can: a write that fails half way leaves part of a line on the stream, the next
  successful event runs together with it, and its number is then missing although nothing was
  deleted (`Verifier.TornWriteLooksDeleted`). `Verifier.MissingMeansDeletedExactly` says when missing
  means deleted for every delivery of a run: if and only if no successful Emit follows such a failure,
  with no success in between, among intact ones.
- The byte budget's int64 counter can wrap. `ByteBudget.DailyCapExactly` shows that the daily cap is
  kept in every run if and only if the cap plus the largest charge stays below 2^63.
- A sweep prunes only leases it has accounted for if and only if the retention is not negative
  (`LeaseStore.RetainExactly`).
- `clampTTL` returns 0 for a positive request under a sub-second `ttlMax`; `Broker.ClampTtlExact`
  says exactly when.

## Model

| member | source | states |
|---|---|---|
| `RateLimit.AllowRefinesSlidingWindow` | internal/ratelimit/ratelimit.go:39-58 | call j on a key is allowed iff for every earlier call i on it (and j itself) the allowed calls among i..j-1, plus one, are at most burst + rate per minute * minutes from i to j; for every history |
| `RateLimit.AllowIsWindowRule` | internal/ratelimit/ratelimit.go:39-58 | the same for any earning function: the constant-memory bucket equals the rule over the whole history |
| `RateLimit.RefillExactly` | internal/ratelimit/ratelimit.go:26-49 | a minute earns the rate, and time earns in proportion |
| `RateLimit.KeyIsolation` | internal/ratelimit/ratelimit.go:43-47 | deleting every other key's calls from the history changes no answer |
| `RateLimit.WindowBoundPerMinute` | internal/ratelimit/ratelimit.go:26-58 | in any stretch of time a key is allowed at most burst + rate * length calls |
| `RateLimit.OncePerMinute` | internal/ratelimit/ratelimit.go:39-58 | with rate and burst 1, two allowed calls on a key are at least a minute apart |
| `RateLimit.Limiter.Allow` | internal/ratelimit/ratelimit.go:39-58 | the in-place method answers by the sliding-window rule over its history and leaves other keys' buckets alone |
| `RateLimit.Limiter.Take` | internal/ratelimit/ratelimit.go:40-57 | the bucket map after refill, cap and take is the one the whole history yields |
| `ByteBudget.DailyCapExactly` | internal/ratelimit/ratelimit.go:78-94 | under a fixed cap the accepted bytes of a key and UTC day stay within it in every run iff cap + largest charge is below 2^63 |
| `ByteBudget.RunTracks` | internal/ratelimit/ratelimit.go:78-94 | the counter equals the day's accepted total and later days start empty |
| `ByteBudget.WrapSlipsThrough` | internal/ratelimit/ratelimit.go:89-92 | without that room a concrete run spends cap + most bytes in one day |
| `ByteBudget.ByteBudget.Spend` | internal/ratelimit/ratelimit.go:78-94 | no limit: accepted, counters untouched; a limit: the day rolls over, and accepted iff the day's counter plus n, in int64, is within it; always the answer the history of charges defines |
| `ByteBudget.SpendExactly` | internal/ratelimit/ratelimit.go:76-94 | over every history without wrap: a charge without a limit is accepted and changes nothing; one with a limit is accepted iff the bytes accepted under limits for that key and UTC day, plus its own, are at most the limit |
| `ByteBudget.DayExactly` | internal/ratelimit/ratelimit.go:84 | a UTC day is 86400 seconds from the epoch on |
| `LeaseStore.NothingLostSilently` | internal/lease/store.go:52-146 | over every run of store operations created = present + rolled back + pruned, disjointly; pruned ones were surrendered or returned by a sweep; none is returned twice; a returned one is never renewed |
| `LeaseStore.RetainExactly` | internal/lease/store.go:131-146 | no sweep can prune an unreported lease iff retain >= 0 |
| `LeaseStore.Store.Create` | internal/lease/store.go:52-67 | the table gains exactly the new lease, field by field, expiring ttl after the clock read |
| `LeaseStore.Store.Get` | internal/lease/store.go:70-79 | a copy of the lease, or nothing |
| `LeaseStore.Store.Renew` | internal/lease/store.go:83-100 | refusals in order (missing, surrendered, expired, not renewable) leave the table alone; success moves only the expiry |
| `LeaseStore.Store.Surrender` | internal/lease/store.go:105-119 | marks exactly this lease, once |
| `LeaseStore.Store.Remove` | internal/lease/store.go:123-127 | the table loses exactly this lease |
| `LeaseStore.Store.SweepExpired` | internal/lease/store.go:131-146 | in any iteration order: exactly the leases past expiry and retention go; those past expiry, not surrendered and not reported, are returned once and flagged; the rest stay as they are |
| `LeaseStore.TermsAreKept` | internal/lease/store.go:52-146 | over every run a lease keeps the subject, scope, semantics, issue time and renewable flag it was created with, a non-renewable one its expiry, flags are never taken back, and a lease gone never returns |
| `Policy.IndexScopes` | internal/policy/policy.go:138-180 | accepts exactly the valid scope lists and indexes them as a search would |
| `Policy.IndexGrants` | internal/policy/policy.go:192-218 | accepts exactly the valid grant lists of a subject and indexes them as a search would |
| `Policy.Parse` | internal/policy/policy.go:130-223 | succeeds iff the document is valid, and its maps then answer every lookup as a search of the declared lists does |
| `Regex.DocumentExactly` | internal/policy/policy.go:21-220 | the documents Parse accepts, spelled out with the patterns as regular expressions |
| `Policy.GrantIffDeclared` | internal/policy/policy.go:226-232 | a lookup of (subject, scope) yields g iff the document declares g there |
| `Policy.GrantFacts` | internal/policy/policy.go:184-220 | a non-nil grant implies a declared, valid scope, ordered TTLs and a well-formed key, so create never dereferences nil |
| `Policy.SubjectKeyShape` | internal/policy/policy.go:32 | the key pattern accepts exactly two labels joined by a slash |
| `Regex.SubjectKeyIsPattern` | internal/policy/policy.go:32 | the key predicate accepts exactly the language of the regular expression |
| `Regex.OpRefIsPattern` | internal/policy/policy.go:21 | the same for 1Password references |
| `Regex.InstallationRefIsPattern` | internal/policy/policy.go:27 | the same for installation references |
| `Regex.PermissionsIsPattern` | internal/policy/policy.go:28 | the same for permissions |
| `Regex.RepositoriesIsPattern` | internal/policy/policy.go:29 | the same for repository lists |
| `Policy.CapIsDeclared` | internal/policy/policy.go:235-242 | the cap is the one declared for the subject, 0 if the document names none |
| `Policy.SubjectRoundTrip` | internal/server/handlers.go:447 | the subject a sweep rebuilds from a granted key is the one that key was made from |
| `Policy.OpenIffFired` | internal/policy/policy.go:82-107 | issuance is open at t iff there are no windows or some cron fire f has t - duration < f <= t |
| `Watcher.Store.ReloadIfChanged` | internal/policy/watcher.go:64-92 | one poll: unreadable, unchanged and invalid content change nothing that is in force, valid content replaces it and reports (old, new) |
| `Watcher.NewStore` | internal/policy/watcher.go:30-40 | a store exists iff the first content is readable and valid |
| `Watcher.CurrentIsLastValid` | internal/policy/watcher.go:64-92 | after any run of polls the policy in force is the last content that parsed |
| `Watcher.CallbackExactly` | internal/policy/watcher.go:64-92 | after any run, a poll is silent iff it reads what was last seen, reloads iff it reads something else that parses, and otherwise reports a failure; either report names the policy in force |
| `Watcher.ReloadsChain` | internal/policy/watcher.go:78-91 | callbacks form a chain from the startup policy to the one in force |
| `Watcher.DiffSorted` | cmd/broker/main.go:276-294 | added and removed are exactly the two differences, in list order |
| `Watcher.KeysOf` | internal/policy/policy.go:256-273 | every key of the index once, sorted |
| `Watcher.OnReload` | cmd/broker/main.go:72-83 | the report states exactly how the subject and scope sets changed, in sorted order |
| `Watcher.ReloadsAccountForPolicy` | cmd/broker/main.go:72-83 | replaying all reports over the startup sets yields exactly the current subjects and scopes |
| `GitHub.PermissionsPattern` | internal/policy/policy.go:28 | the pattern accepts exactly the printed forms of the entry grammar |
| `GitHub.AcceptedParsesToMeaning` | internal/provider/github.go:194-209 | every accepted string parses to the one non-empty map its grammar denotes: last entry wins, values only read, write or admin |
| `GitHub.AnyTextParses` | internal/provider/github.go:194-209 | any text, valid or not: each name with what its last readable part says, unreadable parts dropped |
| `GitHub.PrintThenParse` | internal/provider/github.go:194-209 | printing a non-empty valid map in any order and parsing it back is the identity |
| `GitHub.RepositoriesRejoin` | internal/provider/github.go:212-220 | an accepted repository list rejoins to itself |
| `GitHub.AnyListParses` | internal/provider/github.go:212-220 | any list: its parts trimmed, blank ones left out, in order |
| `GitHub.ParsePermissions` | internal/provider/github.go:194-209 | the loop computes the fold over the trimmed, well-formed parts |
| `GitHub.ParseList` | internal/provider/github.go:212-220 | the loop keeps the non-empty trimmed parts in order |
| `GitHub.MapFields` | internal/provider/github.go:181-188 | succeeds iff every field maps to the one output key, and then maps every field to the secret |
| `GitHub.Fetch` | internal/provider/github.go:120-189 | the refusals in order, the request sent and the result returned, for any token endpoint |
| `GitHub.FetchOfValidatedScope` | internal/policy/policy.go:158-178 | for a validated scope the bad-ref, no-permissions and unknown-field failures are unreachable, the request is what the scope's text denotes, and a success carries the endpoint's secret in every field and its expiry |
| `Json.CanonIffReordered` | internal/audit/audit.go:172 | two well-formed values have the same canonical form iff they differ only in the order of object properties, at any depth |
| `Json.CanonInOrder` | internal/audit/audit.go:172 | in a canonical form the properties of every object, at any depth, stand in the order of their names' UTF-16 code units |
| `Json.KeyLeIsUtf16` | internal/audit/audit.go:172 | the name order is that of UTF-16 code units |
| `Audit.Emitter.Emit` | internal/audit/audit.go:157-190 | a number is committed only by a successful write; every failure leaves it for the next event |
| `Audit.EmittedSays` | internal/audit/audit.go:67-188 | the line a successful Emit appends, member by member: the broker's facts under attested, the caller's under asserted, absent parts left out, the signature over the canonical form of all the rest, nothing more |
| `Audit.EmittedLineVerifies` | internal/audit/audit.go:157-225 | for every event and every reordering of the shipped line, Verify rebuilds the form Emit signed and accepts it, under any lawful sign/verify pair |
| `Audit.VerifyIgnoresOrder` | internal/audit/audit.go:194-225 | any line, valid or not, verifies alike in every property order |
| `Audit.VerifyExactly` | internal/audit/audit.go:194-225 | a line verifies iff it is an object with a non-empty text under sig that the check accepts for the canonical form of exactly the other members, and a broker member that decodes |
| `Verifier.TamperedIsNotCounted` | cmd/acb-verify/main.go:60-72 | a line whose other members no signature covers is neither counted valid nor filed under an instance |
| `SeqAnalysis.ReportIsExact` | cmd/acb-verify/main.go:83-97 | for every list, duplicates = length - distinct, missing = max - min + 1 - distinct = absent numbers between, gaps = maximal absent runs; no wrap in the subtraction |
| `SeqAnalysis.SilentIffInterval` | cmd/acb-verify/main.go:83-97 | nothing is reported iff the list is a permutation of a contiguous interval |
| `SeqAnalysis.FindingsTell` | cmd/acb-verify/main.go:86-97 | every finding printed is the case: a number seen twice, or two neighbours with so many absent between |
| `SeqAnalysis.Analyze` | cmd/acb-verify/main.go:83-97 | the loop's report and counters are those findings |
| `Verifier.Scan` | cmd/acb-verify/main.go:53-78 | every line is counted once and every verified number is filed under its instance in order |
| `Verifier.AnalyzeAll` | cmd/acb-verify/main.go:83-98 | each instance is analysed once, in any map order, and the counters are those of all findings |
| `Verifier.Summarize` | cmd/acb-verify/main.go:53-100 | the totals printed are those of the scan and of all instances' findings |
| `Verifier.EmitterToVerifier` | internal/audit/audit.go:157-190 | for any run of Emit with any failures, any deletion and any reordering: no duplicates; missing = committed events not delivered strictly between the smallest and largest survivors + those delivered there behind a torn write; gaps = maximal runs of them |
| `Verifier.MissingMeansDeletedExactly` | internal/audit/audit.go:149-154 | missing is exactly what was deleted, for every delivery of a run, iff no successful Emit follows a torn failure, with no success in between, among intact ones |
| `Verifier.TornWriteLooksDeleted` | internal/audit/audit.go:182-185 | a success, a torn failure and two successes, delivered whole, report one missing event |
| `Broker.ClampTtlExact` | internal/server/handlers.go:53-65 | for every int64 request the clamp is exact, never overflows, and is 0 only for a positive request under a sub-second cap |
| `BrokerFacts.TableFollowsStore` | internal/lease/store.go:52-146 | every step of every handler changes the table as the store's own operation does: NewLease, AfterRenew with its two clock readings, AfterSurrender, AfterSweep, removal, or nothing |
| `BrokerFacts.SecretsAreJustified` | internal/server/handlers.go:80-203 | in every interleaving a reply with a secret follows a lease.issued event with its id, subject and scope, whose hash names a policy in force during the request that grants the scope, with a cron fire in the window at the checked time |
| `BrokerFacts.LeasesAreBounded` | internal/server/handlers.go:169-177 | in every reachable state an expiry lies between the last write w and w + ttlMax of the grant that authorised it; at issuance it passes a still-future upstream expiry by at most the gap between the two clock reads |
| `BrokerFacts.OneSubjectPerLease` | internal/server/handlers.go:444-458 | all events about a lease, a sweep's included, name one subject and one scope |
| `BrokerAudit.NoUnauditedLease` | internal/server/handlers.go:177-270 | in every interleaving with any writes failing, a lease in the table, not surrendered and not being written by a request, has the expiry, to the second, that some written lease.issued or lease.renewed event states |
| `BrokerStarts.LeasesAreAsAsked` | internal/server/handlers.go:53-251 | in every reachable state a lease goes back to the request that wrote it last: a create for its subject and scope, or a renewal by its subject under a renewable grant, under a policy in force during that request; and it expires exactly when the seconds asked for, the grant and a sooner upstream expiry say |
| `BrokerStarts.EventsAreAsAsked` | internal/server/handlers.go:77-458 | every event fits the request that wrote it: its kind, subject, lease or scope, and the hash of a policy in force during it |
| `BrokerStarts.SecretsGoToTheAsker` | internal/server/handlers.go:196-203 | a secret goes to the subject that asked for its scope |
| `BrokerExpiry.ExpiredMeansExpired` | internal/server/handlers.go:444-458 | lease.expired is written only for a lease past its expiry for good, and states it to the second |
| `BrokerSoloCreate.CreateAlone` | internal/server/handlers.go:77-204 | POST leases run to its end equals a one-decision reference: throttled, refused, denied with an event, issued and disclosed, or undone |
| `BrokerSolo.RenewAlone` | internal/server/handlers.go:206-272 | the same for renew: extended iff held, renewably granted now, well formed, not negative, renewable, not surrendered, not expired; killed if it cannot be told |
| `BrokerSoloRest.SurrenderAlone` | internal/server/handlers.go:274-313 | the same for DELETE: told and then marked iff held and live; left alone if it cannot be told |
| `BrokerSoloRest.SweepAlone` | internal/server/handlers.go:444-458 | the same for the sweep: one table step, one event per lease newly found expired |
| `BrokerSoloRest.ClaimsAlone` | internal/server/handlers.go:337-400 | the same for the events of a claims request |
| `BrokerSoloRest.AuthAlone` | internal/server/server.go:207-223 | a failed authentication is written when sampled |
| `BrokerSolo.ThrottledAlone` | internal/server/server.go:230-243 | a throttled subject leaves at most the event that samples it |
| `BrokerSolo.AloneIsRun` | internal/server/handlers.go:77-313 | a run in which one request takes all the steps is that request on its own |
| `BrokerWords.EventsTellALife` | internal/server/handlers.go:177-311 | in every interleaving in which no two requests ever conflict on a lease, its events are empty, or issued renewed* expired? surrendered? |
| `BrokerWords.SerialNeverClashes` | internal/server/handlers.go:77-311 | runs of non-overlapping handlers are among those |
| `BrokerConflicts.ConflictBreaks` | internal/server/handlers.go:177-311 | wherever two requests conflict on a lease in a reachable state, the two alone can go on to events that are no such word |
| `BrokerConflicts.TwoDeletesBreak` | internal/server/handlers.go:285-311 | wherever two DELETEs of a lease are between Get and mark in a reachable state, the two alone can write two lease.surrendered events |
| `BrokerSurrender.AtMostOneSurrender` | internal/server/handlers.go:285-311 | in every interleaving in which no two DELETEs of a lease are between Get and mark together, it has at most one lease.surrendered event |
| `BrokerDiscipline.OnceIffOneDelete` | internal/server/handlers.go:285-311 | under any discipline of starting requests, never surrendered twice iff never two such DELETEs together |
| `BrokerDiscipline.OrderIffApart` | internal/server/handlers.go:177-311 | under any discipline of starting requests, the events of a lease are always such a word iff no two requests ever conflict on it |
| `BrokerOverlap.DeletesOverlap` | internal/server/handlers.go:285-311 | from startup, under any policy that would issue some lease, a run writes issued surrendered surrendered for it |
| `BrokerOverlap.RenewalOverlapsDelete` | internal/server/handlers.go:251-311 | ... if it is renewable, a run writes issued surrendered renewed |
| `BrokerOverlap.SweepOverlapsDelete` | internal/server/handlers.go:444-458 | ... and a run writes issued surrendered expired |
| `BrokerOverlap.OverlapBreaksTheOrder` | internal/server/handlers.go:285-311 | none of these is a life of the lease |
| `BrokerFlood.FloodBound` | internal/server/server.go:97-101 | the events caused by one subject's calls in any T minutes number at most (LB + LR*T) + M*(CB + CR*T) + (1 + T) |
| `BrokerFlood.SharesAre` | internal/server/server.go:97-101 | the three shares of that bound are burst + rate * T of the lease limiter, the batch limit times burst + rate * T of the claim limiter, and 1 + T |
| `BrokerCauses.AggregatedEventsAreSparse` | internal/server/server.go:207-243 | two throttle events of a subject, or two auth.failed events of a source, were written by different requests whose admitting calls are at least 60 s apart |
| `BrokerCauses.EveryEventIsCounted` | internal/server/handlers.go:77-400 | every event but lease.expired was written by a request that the limiter for its kind admitted under the key the event names, so the bound leaves none out |
| `Claims.AnswersTellTheStream` | internal/server/handlers.go:377-399 | in every interleaving a 202 means one claim.recorded per claim, in order, with the returned ids; after an audit failure the recorded claims are a proper prefix; a refused batch leaves nothing; every record names its request's subject and lease |
| `Claims.RecordedBytesWithinCap` | internal/server/handlers.go:356-381 | the claim bytes recorded from requests charged to one subject and UTC day never exceed the cap |
| `Claims.BatchFits` | internal/server/handlers.go:351-364 | a batch that passes the checks charges at most max claims * max claim bytes |
| `Claims.TotalBytes` | internal/server/handlers.go:356-364 | refuses iff an entry is oversized, else the exact total |
| `Claims.Handler.Check` | internal/server/handlers.go:346-371 | bad request iff malformed, forbidden iff well formed but naming a lease the caller does not hold |
| `Claims.Handler.EmitAll` | internal/server/handlers.go:379-399 | the writes up to the first failure extend the stream in order, and the answer says how far they got |
| `Claims.Handler.Submit` | internal/server/handlers.go:372-399 | the budget is charged once with the batch's bytes, and only an accepted charge is followed by writes |
| `Claims.Handler.HandleClaims` | internal/server/handlers.go:337-400 | each outcome iff its condition, checks in source order; limiter, budget and stream change exactly as stated and stay those of a run of all requests |
| `NotifyPolicy.TargetsOk` | internal/notify/policy.go:97-101 | accepts iff every target matches the pattern |
| `NotifyPolicy.IndexGrants` | internal/notify/policy.go:83-107 | accepts exactly the valid grant lists and indexes what they declare |
| `NotifyPolicy.Parse` | internal/notify/policy.go:66-112 | succeeds iff the document is valid, with an index of exactly what it declares |
| `Regex.NotifyDocumentExactly` | internal/notify/policy.go:28-107 | the documents it accepts, spelled out with the patterns as regular expressions |
| `NotifyPolicy.GrantIffDeclared` | internal/notify/policy.go:116-118 | a lookup yields g iff the document declares g, and g is then valid |
| `NotifyPolicy.PushTargetIsPinned` | internal/notify/policy.go:123-129 | empty iff no push grant is declared, else the declared grant's first target, fit for a URL segment |
| `Notify.SendsIffCovered` | internal/notify/server.go:197-282 | a request is sent on iff a declared grant covers it |
| `Notify.SentIsAuthorised` | internal/notify/ha.go:25-35 | whatever is sent on satisfies the compiled allowlist and the policy document |
| `Notify.ActsExactly` | internal/notify/server.go:197-361 | everything a request does, for every answer of its environment: throttled, denied for the reason that applies, or sent on with exactly the title, message, data or id it asked for, and told |
| `Regex.CeilingExactly` | internal/notify/ha.go:25-35 | the compiled allowlist is two domains, and in the second two services |
| `Notify.EveryCallIsJustified` | internal/notify/server.go:307-337 | in every run each call follows a successful lease of the same request and carries its token, satisfies haAllowed and is authorised; the refusal inside Call never happens |
| `Notify.OneCallPerRequest` | internal/notify/server.go:307-337 | at most one call per request |
| `Notify.DataKeysAllowed` | internal/notify/server.go:216-221 | true iff every data key is group, tag or url |
| `Notify.Proxy.RateOk` | internal/notify/server.go:284-301 | asks the sampling limiter only when throttled, and then leaves at most one event |
| `Notify.Proxy.Call` | internal/notify/ha.go:56-82 | nothing goes out for a pair the ceiling refuses |
| `Notify.Proxy.Forward` | internal/notify/server.go:307-337 | lease, one call, one best-effort event, in that order; 201 iff leased, allowed and answered 2xx |
| `Notify.Proxy.HandlePush` | internal/notify/server.go:197-227 | appends exactly the acts the specification gives this request; 201 iff it succeeds |
| `Notify.Proxy.HandlePersistentCreate` | internal/notify/server.go:235-252 | the same for create |
| `Notify.Proxy.HandlePersistentDismiss` | internal/notify/server.go:258-275 | the same for dismiss |

## Left out

- HTTP routing, JSON and YAML decoding, headers and problem bodies: handlers start from decoded input, with a malformed body as one of its values.
- The Kubernetes, 1Password, GitHub and Home Assistant services: each call returns an arbitrary result.
- Ed25519, RSA, SHA-256 and JWT: an abstract sign/verify pair with its correctness law, and hashes that do not collide among the policies of a run.
- The regexp engine and the cron parser: patterns are written as predicates, and a schedule is a set of fire times with the least-next law; schedules that never fire are outside the model.
- Float64 rounding in the token bucket: `RateLimit` computes with exact reals.
- JSON decoding quirks in `Audit`: duplicate and case-insensitive keys, non-integer numbers, and a write that reports failure after putting the whole line on the stream.
- Error messages, and which of several faults `Parse` reports first.
- The pod fields of a subject, request sources, caller contexts and the policy.reloaded, broker.started and proxy.started events: no property above depends on them.
- BrokerFacts.LeasesAreBounded: the bound is on stored expiries; that the provider honours them is outside the repository.
- Claims.Handler.HandleClaims: asks that the sizes of one decoded batch add up to less than 2^63 bytes, which no process can hold otherwise.
- Claims.RecordedBytesWithinCap: stated for caps with room for one batch below 2^63, the condition `ByteBudget.DailyCapExactly` shows necessary for the budget.
- BrokerWords.EventsTellALife: excludes conflicting requests on the lease, as `BrokerConflicts.ConflictBreaks` shows it must.
- Mutexes: each locked section is one atomic step; data races inside a section are outside the model.
- GrantsFor, whoami, lease GET, verify-key, health and metrics endpoints: easy reads with no state.
- TLS reloading, readiness caches, signal handling, tickers and the playground.
