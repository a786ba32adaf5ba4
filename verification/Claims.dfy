/** POST /v1/claims (internal/server/handlers.go): a batch is charged to the subject's daily byte
    budget once, then its claims are written to the audit stream one by one. */
module Claims {
  import opened Base
  import opened Policy
  import opened ByteBudget
  import RateLimit
  import LeaseStore

  /** A claim in its marshalled form; its length is what the budget is charged. */
  type Claim = string

  function Bytes(claims: seq<Claim>): nat {
    if claims == [] then 0 else Bytes(claims[..|claims| - 1]) + |claims[|claims| - 1]|
  }

  /** A claim.recorded event: what the broker attests and what the caller asserts. */
  datatype Record = Record(sub: Subject, id: string, leaseId: string, body: Claim)

  // ----- All requests, one locked step at a time -----

  /** A written event and the charge its request made. */
  datatype Entry = Entry(charge: nat, rec: Record)

  /** A charged request that still has claims to write. */
  datatype Work = Work(sub: Subject, leaseId: string, left: seq<Claim>, ids: seq<string>)

  /** The answer of a charged request: 202 with the claim ids, or the audit failure. */
  datatype Answer = Accepted202(ids: seq<string>) | AuditDown

  /** Who sent a request, and the lease it names. */
  datatype From = From(sub: Subject, leaseId: string)

  /** A request is known by the index of its charge; batches are the claims of each. */
  datatype Desk = Desk(charges: seq<Charge>, batches: seq<seq<Claim>>, froms: seq<From>, open: map<nat, Work>, stream: seq<Entry>, answers: map<nat, Answer>)

  datatype Step =
    | Admit(sub: Subject, leaseId: string, claims: seq<Claim>, limit: int, at: int)
    | Write(charge: nat, id: string, ok: bool)

  function AdmitNext(d: Desk, sub: Subject, leaseId: string, claims: seq<Claim>, limit: int, at: int): Desk {
    var n := |d.charges|;
    var charges := d.charges + [Charge(Key(sub), Bytes(claims), limit, at)];
    d.(charges := charges, batches := d.batches + [claims], froms := d.froms + [From(sub, leaseId)],
       open := if Accepted(charges, n) then d.open[n := Work(sub, leaseId, claims, [])] else d.open)
  }

  /** The next turn of the emission loop of one request, or its reply. */
  function WriteNext(d: Desk, i: nat, id: string, ok: bool): Desk {
    if i !in d.open then d
    else
      var k := d.open[i];
      if k.left == [] then d.(open := d.open - {i}, answers := d.answers[i := Accepted202(k.ids)])
      else if !ok then d.(open := d.open - {i}, answers := d.answers[i := AuditDown])
      else
        d.(open := d.open[i := k.(left := k.left[1..], ids := k.ids + [id])],
           stream := d.stream + [Entry(i, Record(k.sub, id, k.leaseId, k.left[0]))])
  }

  function Next(d: Desk, step: Step): Desk {
    match step
    case Admit(sub, leaseId, claims, limit, at) => AdmitNext(d, sub, leaseId, claims, limit, at)
    case Write(i, id, ok) => WriteNext(d, i, id, ok)
  }

  const OPENING := Desk([], [], [], map[], [], map[])

  function DeskAfter(steps: seq<Step>): Desk {
    if steps == [] then OPENING else Next(DeskAfter(steps[..|steps| - 1]), steps[|steps| - 1])
  }

  // ----- What each request has written -----

  /** The records request i has written, in order. */
  function RecordsOf(stream: seq<Entry>, i: nat): seq<Record> {
    if stream == [] then []
    else
      var e := stream[|stream| - 1];
      RecordsOf(stream[..|stream| - 1], i) + if e.charge == i then [e.rec] else []
  }

  function Bodies(recs: seq<Record>): (b: seq<Claim>)
    ensures |b| == |recs|
  {
    seq(|recs|, j requires 0 <= j < |recs| => recs[j].body)
  }

  function Ids(recs: seq<Record>): (s: seq<string>)
    ensures |s| == |recs|
  {
    seq(|recs|, j requires 0 <= j < |recs| => recs[j].id)
  }

  ghost predicate IsProperPrefix(a: seq<Claim>, b: seq<Claim>) {
    |a| < |b| && a == b[..|a|]
  }

  /** One request's part of the desk. */
  ghost predicate RequestOk(d: Desk, i: nat)
    requires i < |d.charges| == |d.batches| == |d.froms|
  {
    var recs := RecordsOf(d.stream, i);
    && d.charges[i].n == Bytes(d.batches[i])
    && Key(d.froms[i].sub) == d.charges[i].key && (forall r | r in recs :: r.sub == d.froms[i].sub && r.leaseId == d.froms[i].leaseId)
    && (i in d.open ==> Accepted(d.charges, i) && d.open[i].sub == d.froms[i].sub && d.open[i].leaseId == d.froms[i].leaseId
                        && Bodies(recs) + d.open[i].left == d.batches[i] && Ids(recs) == d.open[i].ids)
    && (i in d.answers ==> i !in d.open && Accepted(d.charges, i) && match d.answers[i]
                           case Accepted202(ids) => Bodies(recs) == d.batches[i] && Ids(recs) == ids
                           case AuditDown => IsProperPrefix(Bodies(recs), d.batches[i]))
    && (i !in d.open && i !in d.answers ==> !Accepted(d.charges, i) && recs == [])
  }

  ghost predicate Inv(d: Desk) {
    && |d.charges| == |d.batches| == |d.froms|
    && (forall i | i in d.open :: i < |d.charges|)
    && (forall i | i in d.answers :: i < |d.charges|)
    && (forall e | e in d.stream :: e.charge < |d.charges|)
    && (forall i: nat | i < |d.charges| :: RequestOk(d, i))
  }

  lemma AcceptedPrefix(charges: seq<Charge>, more: seq<Charge>, i: nat)
    requires i < |charges|
    ensures Accepted(charges + more, i) == Accepted(charges, i)
  {
    assert (charges + more)[..i] == charges[..i];
  }

  lemma {:induction false} NoRecords(stream: seq<Entry>, i: nat)
    requires forall e | e in stream :: e.charge != i
    ensures RecordsOf(stream, i) == []
  {
    if stream != [] {
      NoRecords(stream[..|stream| - 1], i);
    }
  }

  lemma OneMoreRecord(stream: seq<Entry>, e: Entry, i: nat)
    ensures RecordsOf(stream + [e], i) == RecordsOf(stream, i) + if e.charge == i then [e.rec] else []
  {
    assert (stream + [e])[..|stream|] == stream;
  }

  lemma AdmitKeeps(d: Desk, sub: Subject, leaseId: string, claims: seq<Claim>, limit: int, at: int)
    requires Inv(d)
    ensures Inv(AdmitNext(d, sub, leaseId, claims, limit, at))
  {
    var d' := AdmitNext(d, sub, leaseId, claims, limit, at);
    var n := |d.charges|;
    NoRecords(d.stream, n);
    forall i: nat | i < n ensures RequestOk(d', i) {
      assert RequestOk(d, i);
      AcceptedPrefix(d.charges, d'.charges[n..], i);
      assert d'.charges == d.charges + d'.charges[n..];
    }
    assert Bodies(RecordsOf(d'.stream, n)) + claims == claims;
    assert RequestOk(d', n);
  }

  /** A step on request i, the only one whose records, work or answer changes. */
  lemma OnlyOneChanges(d: Desk, d': Desk, i: nat)
    requires Inv(d) && i < |d.charges| && d'.charges == d.charges && d'.batches == d.batches && d'.froms == d.froms && RequestOk(d', i)
    requires forall e | e in d'.stream :: e in d.stream || e.charge == i
    requires forall j: nat | j != i :: RecordsOf(d'.stream, j) == RecordsOf(d.stream, j)
    requires d'.open.Keys <= d.open.Keys + {i} && d'.answers.Keys <= d.answers.Keys + {i}
    requires forall j: nat | j != i :: (j in d.open ==> j in d'.open && d'.open[j] == d.open[j])
    requires forall j: nat | j != i :: (j in d.answers ==> j in d'.answers && d'.answers[j] == d.answers[j])
    ensures Inv(d')
  {
    forall j: nat | j < |d.charges| && j != i ensures RequestOk(d', j) {
      assert RequestOk(d, j);
    }
  }

  lemma WrittenOk(d: Desk, i: nat, id: string)
    requires Inv(d) && i in d.open && d.open[i].left != []
    ensures Inv(WriteNext(d, i, id, true))
  {
    var d' := WriteNext(d, i, id, true);
    var k, recs := d.open[i], RecordsOf(d.stream, i);
    var e := Entry(i, Record(k.sub, id, k.leaseId, k.left[0]));
    assert RequestOk(d, i);
    forall j: nat ensures RecordsOf(d'.stream, j) == RecordsOf(d.stream, j) + if j == i then [e.rec] else [] {
      OneMoreRecord(d.stream, e, j);
    }
    assert Bodies(recs + [e.rec]) == Bodies(recs) + [k.left[0]];
    assert Bodies(recs) + [k.left[0]] + k.left[1..] == Bodies(recs) + k.left;
    assert Ids(recs + [e.rec]) == Ids(recs) + [id];
    OnlyOneChanges(d, d', i);
  }

  lemma ClosedOk(d: Desk, i: nat, id: string, ok: bool)
    requires Inv(d) && i in d.open && (d.open[i].left == [] || !ok)
    ensures Inv(WriteNext(d, i, id, ok))
  {
    var d' := WriteNext(d, i, id, ok);
    var left, b := d.open[i].left, Bodies(RecordsOf(d.stream, i));
    assert RequestOk(d, i);
    assert (b + left)[..|b|] == b && (left == [] ==> b + left == b);
    assert RequestOk(d', i);
    OnlyOneChanges(d, d', i);
  }

  lemma WriteKeeps(d: Desk, i: nat, id: string, ok: bool)
    requires Inv(d)
    ensures Inv(WriteNext(d, i, id, ok))
  {
    if i in d.open {
      if d.open[i].left != [] && ok {
        WrittenOk(d, i, id);
      } else {
        ClosedOk(d, i, id, ok);
      }
    }
  }

  lemma {:induction false} RunKeeps(steps: seq<Step>)
    ensures Inv(DeskAfter(steps))
  {
    if steps != [] {
      var step := steps[|steps| - 1];
      RunKeeps(steps[..|steps| - 1]);
      match step
      case Admit(sub, leaseId, claims, limit, at) => AdmitKeeps(DeskAfter(steps[..|steps| - 1]), sub, leaseId, claims, limit, at);
      case Write(i, id, ok) => WriteKeeps(DeskAfter(steps[..|steps| - 1]), i, id, ok);
    }
  }

  /** However requests interleave and whichever writes fail: a 202 means one claim.recorded per
      claim, in order, under the returned ids; after an audit failure the claims recorded are a
      proper prefix of the batch; a batch the budget refused leaves no trace; every record names
      the subject and the lease of its request. */
  lemma AnswersTellTheStream(steps: seq<Step>, i: nat)
    requires i < |DeskAfter(steps).charges|
    ensures var d := DeskAfter(steps);
            && |d.batches| == |d.charges| == |d.froms|
            && (forall r | r in RecordsOf(d.stream, i) :: r.sub == d.froms[i].sub && r.leaseId == d.froms[i].leaseId)
            && (i in d.answers && d.answers[i].Accepted202? ==>
                  Bodies(RecordsOf(d.stream, i)) == d.batches[i] && Ids(RecordsOf(d.stream, i)) == d.answers[i].ids)
            && (i in d.answers && d.answers[i].AuditDown? ==> IsProperPrefix(Bodies(RecordsOf(d.stream, i)), d.batches[i]))
            && (!Accepted(d.charges, i) ==> RecordsOf(d.stream, i) == [] && i !in d.answers)
  {
    RunKeeps(steps);
    assert RequestOk(DeskAfter(steps), i);
  }

  // ----- The daily cap -----

  lemma {:induction false} BytesOfPrefix(claims: seq<Claim>, n: nat)
    requires n <= |claims|
    ensures Bytes(claims[..n]) <= Bytes(claims)
  {
    if n < |claims| {
      BytesOfPrefix(claims[..|claims| - 1], n);
      assert claims[..|claims| - 1][..n] == claims[..n];
    } else {
      assert claims[..n] == claims;
    }
  }

  /** The bytes that charges before n put in the stream for key and day. */
  function RecordedBefore(stream: seq<Entry>, charges: seq<Charge>, key: string, day: int, n: nat): nat {
    if stream == [] then 0
    else
      var e := stream[|stream| - 1];
      RecordedBefore(stream[..|stream| - 1], charges, key, day, n)
      + if e.charge < n && e.charge < |charges| && charges[e.charge].key == key && Day(charges[e.charge].at) == day then |e.rec.body| else 0
  }

  /** The claim bytes in the stream from requests charged to key on one UTC day. */
  function RecordedOn(d: Desk, key: string, day: int): nat {
    RecordedBefore(d.stream, d.charges, key, day, |d.charges|)
  }

  /** Summing over the stream is summing over the requests. */
  lemma {:induction false} OneMoreCharge(stream: seq<Entry>, charges: seq<Charge>, key: string, day: int, n: nat)
    requires n < |charges|
    ensures RecordedBefore(stream, charges, key, day, n + 1) == RecordedBefore(stream, charges, key, day, n)
            + if charges[n].key == key && Day(charges[n].at) == day then Bytes(Bodies(RecordsOf(stream, n))) else 0
  {
    if stream != [] {
      var e, before := stream[|stream| - 1], stream[..|stream| - 1];
      OneMoreCharge(before, charges, key, day, n);
      if e.charge != n {
        assert RecordsOf(stream, n) == RecordsOf(before, n);
      } else {
        var b := Bodies(RecordsOf(before, n));
        assert Bodies(RecordsOf(stream, n)) == b + [e.rec.body];
        assert (b + [e.rec.body])[..|b|] == b;
      }
    }
  }

  lemma RecordedOfOne(d: Desk, i: nat)
    requires Inv(d) && i < |d.charges|
    ensures Bytes(Bodies(RecordsOf(d.stream, i))) <= if Accepted(d.charges, i) then d.charges[i].n else 0
  {
    assert RequestOk(d, i);
    var b := Bodies(RecordsOf(d.stream, i));
    if Accepted(d.charges, i) {
      assert b == d.batches[i][..|b|];
      BytesOfPrefix(d.batches[i], |b|);
    }
  }

  lemma {:induction false} RecordedWithinSpent(d: Desk, key: string, day: int, n: nat)
    requires Inv(d) && n <= |d.charges|
    ensures RecordedBefore(d.stream, d.charges, key, day, n) <= Spent(d.charges[..n], key, day)
  {
    if n == 0 {
      NothingBeforeTheFirst(d.stream, d.charges, key, day);
    } else {
      RecordedWithinSpent(d, key, day, n - 1);
      OneMoreCharge(d.stream, d.charges, key, day, n - 1);
      RecordedOfOne(d, n - 1);
      assert d.charges[..n][..n - 1] == d.charges[..n - 1];
    }
  }

  lemma {:induction false} NothingBeforeTheFirst(stream: seq<Entry>, charges: seq<Charge>, key: string, day: int)
    ensures RecordedBefore(stream, charges, key, day, 0) == 0
  {
    if stream != [] {
      NothingBeforeTheFirst(stream[..|stream| - 1], charges, key, day);
    }
  }

  /** In every interleaving of claims requests with any writes failing, under a fixed positive cap
      and a clock that never goes back, the claim bytes recorded from requests charged to one
      subject and UTC day never exceed the cap. The room of one batch below 2^63 is what
      DailyCapExactly shows to be needed. */
  lemma RecordedBytesWithinCap(steps: seq<Step>, key: string, day: int, cap: int, most: int)
    requires CapRun(DeskAfter(steps).charges, key, cap, most) && 0 < cap && cap + most <= MAX_INT64
    ensures RecordedOn(DeskAfter(steps), key, day) <= cap
  {
    var d := DeskAfter(steps);
    RunKeeps(steps);
    RecordedWithinSpent(d, key, day, |d.charges|);
    assert d.charges[..|d.charges|] == d.charges;
    RunTracks(d.charges, key, cap, most);
  }

  // ----- The handler -----

  datatype Request = Request(leaseId: string, claims: seq<Claim>)

  datatype Outcome = Throttled | BadRequest | Forbidden | OverCap | Charged(answer: Answer)

  predicate Oversized(claims: seq<Claim>, max: nat) {
    exists c :: c in claims && |c| > max
  }

  predicate Holds(leases: LeaseStore.Table, id: string, key: string) {
    id == "" || (id in leases && leases[id].subjectKey == key)
  }

  /** Everything the handler checks before it charges the budget. */
  predicate WellFormed(req: Option<Request>, maxClaims: nat, maxBytes: nat) {
    req.Some? && 0 < |req.value.claims| <= maxClaims && !Oversized(req.value.claims, maxBytes)
  }

  /** What the most of the cap theorem is for a batch that passed the checks. */
  lemma {:induction false} BatchFits(claims: seq<Claim>, maxClaims: nat, maxBytes: nat)
    requires |claims| <= maxClaims && !Oversized(claims, maxBytes)
    ensures Bytes(claims) <= maxClaims * maxBytes
  {
    if claims != [] {
      var n := |claims| - 1;
      assert claims[n] in claims && forall c | c in claims[..n] :: c in claims;
      BatchFits(claims[..n], maxClaims - 1, maxBytes);
      assert maxClaims * maxBytes == (maxClaims - 1) * maxBytes + maxBytes;
    }
  }

  /** The events of the first k claims of a batch. */
  function Batch(sub: Subject, req: Request, ids: nat -> string, k: nat): seq<Record>
    requires k <= |req.claims|
  {
    seq(k, j requires 0 <= j < k => Record(sub, ids(j), req.leaseId, req.claims[j]))
  }

  function Written(stream: seq<Entry>): seq<Record> {
    seq(|stream|, j requires 0 <= j < |stream| => stream[j].rec)
  }

  /** The writes up to the first failure extend the stream, in order; the answer says how far they got. */
  ghost predicate Emitted(before: seq<Record>, after: seq<Record>, sub: Subject, req: Request, ids: nat -> string, writes: nat -> bool,
                          answer: Answer, k: nat) {
    && k <= |req.claims| && after == before + Batch(sub, req, ids, k) && (forall j: nat | j < k :: writes(j))
    && if k < |req.claims| then !writes(k) && answer == AuditDown
       else answer.Accepted202? && |answer.ids| == k && forall j: nat | j < k :: answer.ids[j] == ids(j)
  }

  ghost predicate HasEmitted(before: seq<Record>, after: seq<Record>, sub: Subject, req: Request, ids: nat -> string, writes: nat -> bool, answer: Answer) {
    exists k :: Emitted(before, after, sub, req, ids, writes, answer, k)
  }

  /** The first k writes succeeded, under these ids. */
  ghost predicate Recorded(out: seq<string>, ids: nat -> string, writes: nat -> bool, k: nat) {
    |out| == k && forall j: nat | j < k :: writes(j) && out[j] == ids(j)
  }

  lemma EmittedUpTo(before: seq<Record>, after: seq<Record>, sub: Subject, req: Request, ids: nat -> string, writes: nat -> bool,
                    out: seq<string>, k: nat)
    requires k <= |req.claims| && after == before + Batch(sub, req, ids, k) && Recorded(out, ids, writes, k)
    ensures k < |req.claims| && !writes(k) ==> HasEmitted(before, after, sub, req, ids, writes, AuditDown)
    ensures k == |req.claims| ==> HasEmitted(before, after, sub, req, ids, writes, Accepted202(out))
  {
    assert k < |req.claims| && !writes(k) ==> Emitted(before, after, sub, req, ids, writes, AuditDown, k);
    assert k == |req.claims| ==> Emitted(before, after, sub, req, ids, writes, Accepted202(out), k);
  }

  lemma BatchGrows(before: seq<Record>, sub: Subject, req: Request, ids: nat -> string, k: nat)
    requires k < |req.claims|
    ensures var rec := Record(sub, ids(k), req.leaseId, req.claims[k]);
            before + Batch(sub, req, ids, k) + [rec] == before + Batch(sub, req, ids, k + 1)
    ensures before + Batch(sub, req, ids, k) + [] == before + Batch(sub, req, ids, k)
    ensures req.claims[k..][0] == req.claims[k] && req.claims[k..][1..] == req.claims[k + 1..]
  {
    assert Batch(sub, req, ids, k + 1) == Batch(sub, req, ids, k) + [Record(sub, ids(k), req.leaseId, req.claims[k])];
  }

  lemma WrittenGrows(stream: seq<Entry>, e: Entry)
    ensures Written(stream + [e]) == Written(stream) + [e.rec]
  {
  }

  lemma OneMoreStep(steps: seq<Step>, step: Step)
    ensures DeskAfter(steps + [step]) == Next(DeskAfter(steps), step)
  {
    assert (steps + [step])[..|steps|] == steps;
  }

  /** The loop that refuses an oversized entry and adds the sizes up in an int64. */
  method TotalBytes(claims: seq<Claim>, max: nat) returns (r: Option<int>)
    requires Bytes(claims) <= MAX_INT64
    ensures r.None? <==> Oversized(claims, max)
    ensures r.Some? ==> r.value == Bytes(claims)
  {
    var total := 0;
    for i := 0 to |claims|
      invariant total == Bytes(claims[..i])
      invariant forall j | 0 <= j < i :: |claims[j]| <= max
    {
      if |claims[i]| > max {
        return None;
      }
      assert claims[..i + 1][..i] == claims[..i];
      BytesOfPrefix(claims, i + 1);
      total := Wrap64(total + |claims[i]|);
    }
    assert claims[..|claims|] == claims;
    return Some(total);
  }

  class Handler {
    const maxClaims: nat
    const maxClaimBytes: nat
    const limiter: RateLimit.Limiter
    const budget: ByteBudget
    var stream: seq<Record>
    ghost var steps: seq<Step>
    ghost var desk: Desk

    /** The stream and the budget are those of a run of the desk. */
    ghost predicate Ledger()
      reads this, budget
    {
      budget.Valid() && desk == DeskAfter(steps) && desk.charges == budget.charges && Written(desk.stream) == stream
    }

    ghost predicate Valid()
      reads this, limiter, budget
    {
      limiter.Valid() && Ledger()
    }

    constructor (maxClaims: nat, maxClaimBytes: nat, rate: real, burst: int)
      ensures Valid() && stream == [] && steps == []
    {
      this.maxClaims, this.maxClaimBytes := maxClaims, maxClaimBytes;
      limiter := new RateLimit.Limiter(rate, burst);
      budget := new ByteBudget();
      stream, steps, desk := [], [], OPENING;
    }

    /** One turn of the desk, recorded. */
    ghost method Turn(step: Step)
      requires desk == DeskAfter(steps)
      modifies this`steps, this`desk
      ensures desk == DeskAfter(steps) == Next(old(desk), step) && steps == old(steps) + [step]
    {
      OneMoreStep(steps, step);
      steps := steps + [step];
      desk := Next(desk, step);
    }

    /** One Emit of the loop. */
    method EmitOne(rec: Record, ok: bool, ghost i: nat, ghost left: seq<Claim>, ghost out: seq<string>)
      requires Ledger() && i in desk.open && left != [] && left[0] == rec.body
      requires desk.open[i] == Work(rec.sub, rec.leaseId, left, out)
      modifies this`stream, this`steps, this`desk
      ensures Ledger() && stream == old(stream) + if ok then [rec] else []
      ensures if ok then i in desk.open && desk.open[i] == Work(rec.sub, rec.leaseId, left[1..], out + [rec.id])
              else i in desk.answers && desk.answers[i] == AuditDown
    {
      WrittenGrows(desk.stream, Entry(i, rec));
      Turn(Write(i, rec.id, ok));
      if ok {
        stream := stream + [rec];
      }
    }

    /** All claims are written: the request answers with their ids. */
    method Reply(out: seq<string>, ghost i: nat, ghost sub: Subject, ghost leaseId: string) returns (answer: Answer)
      requires Ledger() && i in desk.open && desk.open[i] == Work(sub, leaseId, [], out)
      modifies this`steps, this`desk
      ensures Ledger() && i in desk.answers && desk.answers[i] == answer && answer == Accepted202(out)
    {
      Turn(Write(i, "", true));
      return Accepted202(out);
    }

    /** The emission loop: claim j gets the id ids(j), and writes(j) says whether its write succeeds. */
    method EmitAll(sub: Subject, req: Request, ids: nat -> string, writes: nat -> bool, ghost i: nat) returns (answer: Answer)
      requires Ledger() && i in desk.open && desk.open[i] == Work(sub, req.leaseId, req.claims, [])
      modifies this`stream, this`steps, this`desk
      ensures Ledger() && HasEmitted(old(stream), stream, sub, req, ids, writes, answer)
      ensures i in desk.answers && desk.answers[i] == answer
    {
      var out, k := [], 0;
      while k < |req.claims|
        invariant Ledger() && 0 <= k <= |req.claims| && stream == old(stream) + Batch(sub, req, ids, k)
        invariant Recorded(out, ids, writes, k)
        invariant i in desk.open && desk.open[i] == Work(sub, req.leaseId, req.claims[k..], out)
      {
        BatchGrows(old(stream), sub, req, ids, k);
        EmitOne(Record(sub, ids(k), req.leaseId, req.claims[k]), writes(k), i, req.claims[k..], out);
        if !writes(k) {
          assert stream == old(stream) + Batch(sub, req, ids, k);
          EmittedUpTo(old(stream), stream, sub, req, ids, writes, out, k);
          return AuditDown;
        }
        out, k := out + [ids(k)], k + 1;
      }
      EmittedUpTo(old(stream), stream, sub, req, ids, writes, out, k);
      answer := Reply(out, i, sub, req.leaseId);
    }

    /** Charges the budget. */
    method ChargeBatch(sub: Subject, req: Request, total: int, limit: int, now: int) returns (ok: bool)
      requires Ledger() && total == Bytes(req.claims)
      modifies this`steps, this`desk, budget
      ensures Ledger() && budget.charges == old(budget.charges) + [Charge(Key(sub), total, limit, now)]
      ensures ok == Accepted(budget.charges, |budget.charges| - 1)
      ensures var i := |old(budget.charges)|; ok ==> i in desk.open && desk.open[i] == Work(sub, req.leaseId, req.claims, [])
    {
      ok := budget.Spend(Key(sub), total, limit, now);
      Turn(Admit(sub, req.leaseId, req.claims, limit, now));
    }

    /** The checks on the body and the lease; total is the batch's size. */
    method Check(key: string, req: Option<Request>, leases: LeaseStore.Table) returns (refusal: Option<Outcome>, total: int)
      requires req.Some? ==> Bytes(req.value.claims) <= MAX_INT64
      ensures refusal == Some(BadRequest) <==> !WellFormed(req, maxClaims, maxClaimBytes)
      ensures refusal == Some(Forbidden) <==> WellFormed(req, maxClaims, maxClaimBytes) && !Holds(leases, req.value.leaseId, key)
      ensures refusal == Some(BadRequest) <==>
                (req.None? || req.value.claims == [] || |req.value.claims| > maxClaims || exists c :: c in req.value.claims && |c| > maxClaimBytes)
      ensures refusal == Some(Forbidden) <==>
                && refusal != Some(BadRequest) && req.value.leaseId != ""
                && !(req.value.leaseId in leases && leases[req.value.leaseId].subjectKey == key)
      ensures refusal in {None, Some(BadRequest), Some(Forbidden)}
      ensures refusal.None? ==> total == Bytes(req.value.claims)
    {
      total := 0;
      if req.None? || |req.value.claims| == 0 || |req.value.claims| > maxClaims {
        return Some(BadRequest), total;
      }
      var sum := TotalBytes(req.value.claims, maxClaimBytes);
      if sum.None? {
        return Some(BadRequest), total;
      }
      total := sum.value;
      if req.value.leaseId != "" {
        if req.value.leaseId !in leases || leases[req.value.leaseId].subjectKey != key {
          return Some(Forbidden), total;
        }
      }
      return None, total;
    }

    /** Charge, then emit: what happens to a batch that passed the checks. */
    method Submit(sub: Subject, req: Request, total: int, limit: int, now: int, ids: nat -> string, writes: nat -> bool) returns (out: Outcome)
      requires Ledger() && total == Bytes(req.claims)
      modifies this`stream, this`steps, this`desk, budget
      ensures Ledger() && budget.charges == old(budget.charges) + [Charge(Key(sub), Bytes(req.claims), limit, now)]
      ensures out == OverCap <==> !Accepted(budget.charges, |budget.charges| - 1)
      ensures out == OverCap ==> stream == old(stream)
      ensures out != OverCap ==> out.Charged? && HasEmitted(old(stream), stream, sub, req, ids, writes, out.answer)
      ensures out != OverCap ==> |old(budget.charges)| in desk.answers && desk.answers[|old(budget.charges)|] == out.answer
    {
      ghost var i := |budget.charges|;
      var ok := ChargeBatch(sub, req, total, limit, now);
      if !ok {
        return OverCap;
      }
      var answer := EmitAll(sub, req, ids, writes, i);
      return Charged(answer);
    }

    /** handleClaims: limiter, shape, lease, budget, then the writes, in that order. */
    method HandleClaims(sub: Subject, req: Option<Request>, leases: LeaseStore.Table, pol: Policy, t: int, now: int,
                        ids: nat -> string, writes: nat -> bool) returns (out: Outcome)
      requires Valid() && (req.Some? ==> Bytes(req.value.claims) <= MAX_INT64)
      modifies this`stream, this`steps, this`desk, limiter, budget
      ensures Valid() && limiter.calls == old(limiter.calls) + [RateLimit.Call(Key(sub), t)]
      ensures out == Throttled <==> !RateLimit.Verdict(limiter.params, limiter.calls, |limiter.calls| - 1)
      ensures out == BadRequest <==> out != Throttled && !WellFormed(req, maxClaims, maxClaimBytes)
      ensures out == Forbidden <==> out != Throttled && out != BadRequest && !Holds(leases, req.value.leaseId, Key(sub))
      ensures !out.OverCap? && !out.Charged? ==> budget.charges == old(budget.charges)
      ensures out.OverCap? || out.Charged? ==>
                && budget.charges == old(budget.charges) + [Charge(Key(sub), Bytes(req.value.claims), ClaimBytesCap(pol, Key(sub)), now)]
                && (out.Charged? <==> Accepted(budget.charges, |budget.charges| - 1))
      ensures !out.Charged? ==> stream == old(stream)
      ensures out.Charged? ==> HasEmitted(old(stream), stream, sub, req.value, ids, writes, out.answer)
    {
      var ok := limiter.Allow(Key(sub), t);
      if !ok {
        return Throttled;
      }
      var refusal, total := Check(Key(sub), req, leases);
      if refusal.Some? {
        return refusal.value;
      }
      out := Submit(sub, req.value, total, ClaimBytesCap(pol, Key(sub)), now, ids, writes);
    }
  }
}
