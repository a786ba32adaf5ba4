/** The in-memory lease table (internal/lease/store.go). */
module LeaseStore {
  import opened Base

  datatype Lease = Lease(
    id: string, subjectKey: string, scope: string, semantics: string,
    issuedAt: int, expiresAt: int, renewable: bool,
    surrendered: bool, expiredEmit: bool)

  type Table = map<string, Lease>

  datatype RenewOutcome = Renewed(lease: Lease) | NotFound | Surrendered | Expired | NonRenewable

  datatype SurrenderOutcome = Marked(lease: Lease) | Already(lease: Lease) | NoLease

  // ----- What each operation does to the table -----

  function NewLease(id: string, subjectKey: string, scope: string, semantics: string, ttl: int, renewable: bool, now: int): Lease {
    Lease(id, subjectKey, scope, semantics, now, now + ttl, renewable, false, false)
  }

  /** Renew reads the clock twice: once to test expiry, once to set the new one. */
  function RenewCheck(t: Table, id: string, tested: int, ttl: int, now: int): RenewOutcome {
    if id !in t then NotFound
    else if t[id].surrendered then Surrendered
    else if tested > t[id].expiresAt then Expired
    else if !t[id].renewable then NonRenewable
    else Renewed(t[id].(expiresAt := now + ttl))
  }

  function AfterRenew(t: Table, id: string, tested: int, ttl: int, now: int): Table {
    var r := RenewCheck(t, id, tested, ttl, now);
    if r.Renewed? then t[id := r.lease] else t
  }

  function AfterSurrender(t: Table, id: string): Table {
    if id in t then t[id := t[id].(surrendered := true)] else t
  }

  /** Past expiry and not yet reported: what a sweep hands to its caller. */
  predicate NewlyExpired(l: Lease, now: int) {
    now > l.expiresAt && !l.expiredEmit && !l.surrendered
  }

  /** Long dead: what a sweep deletes. */
  predicate Prunable(l: Lease, now: int, retain: int) {
    now > l.expiresAt + retain
  }

  function Swept(l: Lease, now: int): Lease {
    if NewlyExpired(l, now) then l.(expiredEmit := true) else l
  }

  function AfterSweep(t: Table, now: int, retain: int): Table {
    map id | id in t && !Prunable(t[id], now, retain) :: Swept(t[id], now)
  }

  /** out lists every newly expired lease once, flagged, in the order the map iteration happened on. */
  ghost predicate SweepReturns(t: Table, now: int, out: seq<Lease>) {
    && (forall i | 0 <= i < |out| ::
          out[i].id in t && NewlyExpired(t[out[i].id], now) && out[i] == Swept(t[out[i].id], now))
    && (forall i, j | 0 <= i < j < |out| :: out[i].id != out[j].id)
    && (forall id | id in t && NewlyExpired(t[id], now) :: exists i :: 0 <= i < |out| && out[i].id == id)
  }

  ghost predicate KeyedById(t: Table) {
    forall id | id in t :: t[id].id == id
  }

  class Store {
    var leases: Table

    ghost predicate Valid()
      reads this
    {
      KeyedById(leases)
    }

    constructor ()
      ensures Valid() && leases == map[]
    {
      leases := map[];
    }

    /** id is the random identifier NewID draws. */
    method Create(id: string, subjectKey: string, scope: string, semantics: string, ttl: int, renewable: bool, now: int)
      returns (l: Lease)
      requires Valid()
      modifies this
      ensures Valid() && leases == old(leases)[id := l]
      ensures l == NewLease(id, subjectKey, scope, semantics, ttl, renewable, now)
      ensures l.id == id && l.subjectKey == subjectKey && l.scope == scope && l.semantics == semantics && l.renewable == renewable
      ensures l.issuedAt == now && l.expiresAt == now + ttl && !l.surrendered && !l.expiredEmit
    {
      l := Lease(id, subjectKey, scope, semantics, now, now + ttl, renewable, false, false);
      leases := leases[id := l];
    }

    method Get(id: string) returns (l: Option<Lease>)
      ensures l == if id in leases then Some(leases[id]) else None
    {
      if id !in leases {
        return None;
      }
      return Some(leases[id]);
    }

    method Renew(id: string, ttl: int, tested: int, now: int) returns (r: RenewOutcome)
      requires Valid() && tested <= now
      modifies this
      ensures Valid() && leases == AfterRenew(old(leases), id, tested, ttl, now)
      ensures r == RenewCheck(old(leases), id, tested, ttl, now)
      ensures r.NotFound? <==> id !in old(leases)
      ensures r.Surrendered? <==> id in old(leases) && old(leases)[id].surrendered
      ensures r.Expired? <==> id in old(leases) && !old(leases)[id].surrendered && tested > old(leases)[id].expiresAt
      ensures r.NonRenewable? <==>
                id in old(leases) && !old(leases)[id].surrendered && tested <= old(leases)[id].expiresAt && !old(leases)[id].renewable
      ensures r.Renewed? ==> leases == old(leases)[id := old(leases)[id].(expiresAt := now + ttl)] && r.lease == leases[id]
      ensures !r.Renewed? ==> leases == old(leases)
    {
      if id !in leases {
        return NotFound;
      }
      var l := leases[id];
      if l.surrendered {
        return Surrendered;
      } else if tested > l.expiresAt {
        return Expired;
      } else if !l.renewable {
        return NonRenewable;
      }
      leases := leases[id := l.(expiresAt := now + ttl)];
      return Renewed(leases[id]);
    }

    method Surrender(id: string) returns (r: SurrenderOutcome)
      requires Valid()
      modifies this
      ensures Valid() && leases == AfterSurrender(old(leases), id)
      ensures r.NoLease? <==> id !in old(leases)
      ensures r.Already? <==> id in old(leases) && old(leases)[id].surrendered
      ensures !r.NoLease? ==> r.lease == leases[id] && leases == old(leases)[id := old(leases)[id].(surrendered := true)]
      ensures r.NoLease? ==> leases == old(leases)
    {
      if id !in leases {
        return NoLease;
      }
      var l := leases[id];
      if l.surrendered {
        assert leases[id := l.(surrendered := true)] == leases;
        return Already(l);
      }
      leases := leases[id := l.(surrendered := true)];
      return Marked(leases[id]);
    }

    method Remove(id: string)
      requires Valid()
      modifies this
      ensures Valid() && leases == old(leases) - {id}
    {
      leases := leases - {id};
    }

    /** Visits the table in an arbitrary order, flagging and deleting as it goes. */
    method SweepExpired(retain: int, now: int) returns (out: seq<Lease>)
      requires Valid()
      modifies this
      ensures Valid() && leases == AfterSweep(old(leases), now, retain)
      ensures SweepReturns(old(leases), now, out)
      ensures forall id :: id in leases <==> id in old(leases) && now <= old(leases)[id].expiresAt + retain
      ensures forall id | id in leases ::
                leases[id] == if now > old(leases)[id].expiresAt && !old(leases)[id].expiredEmit && !old(leases)[id].surrendered
                              then old(leases)[id].(expiredEmit := true) else old(leases)[id]
      ensures forall i, j | 0 <= i < j < |out| :: out[i].id != out[j].id
      ensures forall id :: (exists i :: 0 <= i < |out| && out[i].id == id) <==>
                           id in old(leases) && now > old(leases)[id].expiresAt && !old(leases)[id].expiredEmit && !old(leases)[id].surrendered
    {
      out := [];
      var todo := leases.Keys;
      ghost var done: Table, rest: Table := map[], leases;
      while todo != {}
        invariant todo == rest.Keys && done.Keys !! rest.Keys
        invariant done + rest == old(leases) && KeyedById(rest)
        invariant leases == AfterSweep(done, now, retain) + rest
        invariant SweepReturns(done, now, out)
        decreases |todo|
      {
        var id :| id in todo;
        var l := leases[id];
        ghost var was, rec := leases, l;
        SweepOneMore(done, id, rec, now, out);
        AfterSweepOneMore(done, rest, id, now, retain);
        done, rest := done[id := rec], rest - {id};
        if now > l.expiresAt && !l.expiredEmit && !l.surrendered {
          l := l.(expiredEmit := true);
          leases := leases[id := l];
          out := out + [l];
        }
        SetAndDelete(was, id, Swept(rec, now));
        if now > l.expiresAt + retain {
          leases := leases - {id};
        }
        todo := todo - {id};
      }
      SweepDone(done, rest, AfterSweep(done, now, retain));
    }
  }

  lemma SweepDone(done: Table, rest: Table, swept: Table)
    requires rest.Keys == {}
    ensures done + rest == done && swept + rest == swept
  {
  }

  lemma SetAndDelete(t: Table, id: string, l: Lease)
    requires id in t
    ensures t[id := t[id]] == t && t[id := l] - {id} == t - {id}
  {
  }

  lemma SweepOneMore(done: Table, id: string, l: Lease, now: int, out: seq<Lease>)
    requires SweepReturns(done, now, out) && id !in done && l.id == id
    ensures SweepReturns(done[id := l], now, if NewlyExpired(l, now) then out + [Swept(l, now)] else out)
  {
    var t, o := done[id := l], if NewlyExpired(l, now) then out + [Swept(l, now)] else out;
    forall k | k in t && NewlyExpired(t[k], now) ensures exists i :: 0 <= i < |o| && o[i].id == k {
      if k == id {
        assert o[|out|].id == k;
      } else {
        var i :| 0 <= i < |out| && out[i].id == k;
        assert o[i].id == k;
      }
    }
  }

  lemma AfterSweepOneMore(done: Table, rest: Table, id: string, now: int, retain: int)
    requires id in rest && id !in done
    ensures var leases := AfterSweep(done, now, retain) + rest;
            AfterSweep(done[id := rest[id]], now, retain) + (rest - {id}) ==
            if Prunable(rest[id], now, retain) then leases - {id} else leases[id := Swept(rest[id], now)]
    ensures done[id := rest[id]] + (rest - {id}) == done + rest
  {
  }

  // ----- Whole runs of the table -----

  datatype Op =
    | OpCreate(id: string, subjectKey: string, scope: string, semantics: string, ttl: int, renewable: bool, now: int)
    | OpRenew(id: string, ttl: int, tested: int, now: int)
    | OpSurrender(id: string)
    | OpRemove(id: string)
    | OpSweep(out: seq<Lease>, retain: int, now: int)

  /** The table and what has happened to it: every id that was created, rolled back, pruned,
      surrendered, and every id a sweep returned, in order. */
  datatype History = History(
    table: Table, clock: int,
    created: set<string>, rolledBack: set<string>, pruned: set<string>,
    surrendered: set<string>, returned: seq<string>)

  function Start(clock: int): History {
    History(map[], clock, {}, {}, {}, {}, [])
  }

  /** Ids are fresh, the clock never goes back, and leases are kept at least until they expire. */
  ghost predicate Admissible(h: History, op: Op) {
    match op
    case OpCreate(id, _, _, _, _, _, now) => id !in h.created && h.clock <= now
    case OpRenew(_, _, tested, now) => h.clock <= tested <= now
    case OpSurrender(_) => true
    case OpRemove(_) => true
    case OpSweep(out, retain, now) => h.clock <= now && retain >= 0 && SweepReturns(h.table, now, out)
  }

  function Ids(out: seq<Lease>): seq<string> {
    seq(|out|, i requires 0 <= i < |out| => out[i].id)
  }

  ghost function Next(h: History, op: Op): History {
    match op
    case OpCreate(id, subjectKey, scope, semantics, ttl, renewable, now) =>
      h.(table := h.table[id := NewLease(id, subjectKey, scope, semantics, ttl, renewable, now)],
         created := h.created + {id}, clock := now)
    case OpRenew(id, ttl, tested, now) =>
      h.(table := AfterRenew(h.table, id, tested, ttl, now), clock := now)
    case OpSurrender(id) =>
      h.(table := AfterSurrender(h.table, id),
         surrendered := h.surrendered + if id in h.table then {id} else {})
    case OpRemove(id) =>
      h.(table := h.table - {id}, rolledBack := h.rolledBack + if id in h.table then {id} else {})
    case OpSweep(out, retain, now) =>
      var t := AfterSweep(h.table, now, retain);
      h.(table := t, pruned := h.pruned + (h.table.Keys - t.Keys), returned := h.returned + Ids(out), clock := now)
  }

  ghost predicate IsRun(h: History, ops: seq<Op>)
    decreases |ops|
  {
    ops == [] || (Admissible(h, ops[0]) && IsRun(Next(h, ops[0]), ops[1..]))
  }

  ghost function Run(h: History, ops: seq<Op>): History
    decreases |ops|
  {
    if ops == [] then h else Run(Next(h, ops[0]), ops[1..])
  }

  /** Nothing is lost silently: the created ids split into present, rolled back and pruned ones. */
  ghost predicate Conserved(h: History) {
    && h.created == h.table.Keys + h.rolledBack + h.pruned
    && h.table.Keys !! h.rolledBack !! h.pruned
  }

  /** Every lease pruned had been surrendered or reported as expired. */
  ghost predicate PrunedAccountedFor(h: History) {
    forall id | id in h.pruned :: id in h.surrendered || id in h.returned
  }

  ghost predicate ReturnedOnce(h: History) {
    forall i, j | 0 <= i < j < |h.returned| :: h.returned[i] != h.returned[j]
  }

  /** The flags in the table say what happened, and a reported lease is past its expiry for good. */
  ghost predicate FlagsTruthful(h: History) {
    && KeyedById(h.table)
    && (forall id | id in h.returned :: id in h.created)
    && (forall id | id in h.table ::
          && (h.table[id].surrendered <==> id in h.surrendered)
          && (h.table[id].expiredEmit <==> id in h.returned)
          && (h.table[id].expiredEmit ==> h.clock > h.table[id].expiresAt))
    && (forall id | id in h.surrendered :: id in h.created)
  }

  ghost predicate Inv(h: History) {
    Conserved(h) && PrunedAccountedFor(h) && ReturnedOnce(h) && FlagsTruthful(h)
  }

  lemma SweepKeepsInv(h: History, out: seq<Lease>, retain: int, now: int)
    requires Inv(h) && Admissible(h, OpSweep(out, retain, now))
    ensures Inv(Next(h, OpSweep(out, retain, now)))
  {
    var op := OpSweep(out, retain, now);
    var h' := Next(h, op);
    var ids := Ids(out);
    forall id ensures id in h'.returned <==> id in h.returned || (id in h.table && NewlyExpired(h.table[id], now)) {
      if id in h.table && NewlyExpired(h.table[id], now) {
        var i :| 0 <= i < |out| && out[i].id == id;
        assert ids[i] == id;
      }
    }
    forall i | 0 <= i < |out| ensures ids[i] !in h.returned {
      assert !h.table[out[i].id].expiredEmit;
    }
    assert ReturnedOnce(h');
  }

  lemma NextKeepsInv(h: History, op: Op)
    requires Inv(h) && Admissible(h, op)
    ensures Inv(Next(h, op))
  {
    if op.OpSweep? {
      SweepKeepsInv(h, op.out, op.retain, op.now);
    }
  }

  lemma {:induction false} RunKeepsInv(h: History, ops: seq<Op>)
    requires Inv(h) && IsRun(h, ops)
    ensures Inv(Run(h, ops))
    decreases |ops|
  {
    if ops != [] {
      NextKeepsInv(h, ops[0]);
      RunKeepsInv(Next(h, ops[0]), ops[1..]);
    }
  }

  /** Over every run from the empty table: created = present + rolled back + pruned, disjointly;
      every pruned lease was surrendered or returned by a sweep; no sweep returns a lease twice;
      and a returned lease can never be renewed. */
  lemma NothingLostSilently(clock: int, ops: seq<Op>)
    requires IsRun(Start(clock), ops)
    ensures var h := Run(Start(clock), ops);
            && Conserved(h) && PrunedAccountedFor(h) && ReturnedOnce(h)
            && forall id, tested, ttl, now | id in h.returned && h.clock <= tested <= now ::
                 !RenewCheck(h.table, id, tested, ttl, now).Renewed?
  {
    RunKeepsInv(Start(clock), ops);
  }

  /** What a lease was given when it was created. */
  predicate SameTerms(l: Lease, l': Lease) {
    && l'.id == l.id && l'.subjectKey == l.subjectKey && l'.scope == l.scope && l'.semantics == l.semantics
    && l'.issuedAt == l.issuedAt && l'.renewable == l.renewable && (!l.renewable ==> l'.expiresAt == l.expiresAt)
    && (l.surrendered ==> l'.surrendered) && (l.expiredEmit ==> l'.expiredEmit)
  }

  lemma StepKeepsTerms(h: History, op: Op, id: string)
    requires Inv(h) && Admissible(h, op) && id in h.table && id in Next(h, op).table
    ensures SameTerms(h.table[id], Next(h, op).table[id])
  {
  }

  lemma StepNeverReturns(h: History, op: Op, id: string)
    requires Inv(h) && Admissible(h, op) && id in h.created && id !in h.table
    ensures id in Next(h, op).created && id !in Next(h, op).table
  {
  }

  lemma {:induction false} GoneForGood(h: History, ops: seq<Op>, id: string)
    requires Inv(h) && IsRun(h, ops) && id in h.created && id !in h.table
    ensures id !in Run(h, ops).table
    decreases |ops|
  {
    if ops != [] {
      NextKeepsInv(h, ops[0]);
      StepNeverReturns(h, ops[0], id);
      GoneForGood(Next(h, ops[0]), ops[1..], id);
    }
  }

  /** Over every run, a lease keeps the subject, scope, semantics, issue time and renewable flag it was
      created with, a lease that is not renewable keeps its expiry, flags are never taken back, and a
      lease that has left the table never comes back. */
  lemma {:induction false} TermsAreKept(h: History, ops: seq<Op>, id: string)
    requires Inv(h) && IsRun(h, ops) && id in h.table && id in Run(h, ops).table
    ensures SameTerms(h.table[id], Run(h, ops).table[id])
    decreases |ops|
  {
    if ops != [] {
      NextKeepsInv(h, ops[0]);
      if id in Next(h, ops[0]).table {
        StepKeepsTerms(h, ops[0], id);
        TermsAreKept(Next(h, ops[0]), ops[1..], id);
      } else {
        StaysCreated(h, ops[0], id);
        GoneForGood(Next(h, ops[0]), ops[1..], id);
      }
    }
  }

  lemma StaysCreated(h: History, op: Op, id: string)
    requires Inv(h) && id in h.table
    ensures id in Next(h, op).created
  {
  }

  /** Some table and clock from which a sweep would delete a lease nobody was told about. */
  ghost predicate PrunesSilently(t: Table, now: int, retain: int) {
    exists id :: id in t && Prunable(t[id], now, retain) && !t[id].surrendered && !t[id].expiredEmit && !NewlyExpired(t[id], now)
  }

  /** Keeping leases until expiry is exactly what makes pruning accountable. */
  lemma RetainExactly(retain: int)
    ensures (forall t: Table, now :: !PrunesSilently(t, now, retain)) <==> retain >= 0
  {
    if retain < 0 {
      var l := NewLease("lease_1", "ns/sa", "scope", "static-disclosure", 0, false, 0);
      var t: Table := map["lease_1" := l];
      assert t["lease_1"] == l;
      assert PrunesSilently(t, 0, retain);
    }
  }
}
