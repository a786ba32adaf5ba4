/** The life of a lease as its events tell it, when requests do not conflict on it. */
module BrokerWords {
  import opened Base
  import opened Broker
  import opened BrokerFacts
  import LeaseStore

  // ----- The word of a lease -----

  datatype Letter = I | R | E | S

  function LetterOf(e: Event): Letter
    requires IsLeaseEvent(e)
  {
    if e.Issued? then I else if e.Renewed? then R else if e.Expired? then E else S
  }

  /** The lease events of one id, in stream order. */
  function Word(stream: seq<Event>, id: string): seq<Letter> {
    if stream == [] then []
    else
      var n := |stream| - 1;
      Word(stream[..n], id) + if IsLeaseEvent(stream[n]) && stream[n].id == id then [LetterOf(stream[n])] else []
  }

  function Renewals(n: nat): seq<Letter> {
    seq(n, _ => R)
  }

  /** Empty, or issued renewed* expired? surrendered?. */
  ghost predicate IsLifecycle(word: seq<Letter>) {
    word == [] || exists n: nat, expired: bool, surrendered: bool :: word == Lifecycle(n, expired, surrendered)
  }

  function Lifecycle(n: nat, expired: bool, surrendered: bool): seq<Letter> {
    [I] + Renewals(n) + (if expired then [E] else []) + (if surrendered then [S] else [])
  }

  // ----- Reading it letter by letter -----

  datatype Phase = Fresh | Active | Past | Ended | Wrong

  function PhaseNext(p: Phase, l: Letter): Phase {
    match (p, l)
    case (Fresh, I) => Active
    case (Active, R) => Active
    case (Active, E) => Past
    case (Active, S) => Ended
    case (Past, S) => Ended
    case _ => Wrong
  }

  function PhaseOf(stream: seq<Event>, id: string): Phase {
    if stream == [] then Fresh
    else
      var n := |stream| - 1;
      var p := PhaseOf(stream[..n], id);
      if IsLeaseEvent(stream[n]) && stream[n].id == id then PhaseNext(p, LetterOf(stream[n])) else p
  }

  lemma PhaseAfter(stream: seq<Event>, events: seq<Event>, id: string)
    requires |events| <= 1
    ensures PhaseOf(stream + events, id) ==
            if events != [] && IsLeaseEvent(events[0]) && events[0].id == id
            then PhaseNext(PhaseOf(stream, id), LetterOf(events[0])) else PhaseOf(stream, id)
  {
    if events == [] {
      assert stream + events == stream;
    } else {
      assert (stream + events)[..|stream|] == stream;
    }
  }

  /** What a word looks like that has reached a phase. */
  ghost predicate Reached(p: Phase, w: seq<Letter>) {
    match p
    case Fresh => w == []
    case Active => exists n: nat :: w == Lifecycle(n, false, false)
    case Past => exists n: nat :: w == Lifecycle(n, true, false)
    case Ended => exists n: nat, e: bool :: w == Lifecycle(n, e, true)
    case Wrong => true
  }

  lemma LifecycleGrows(n: nat)
    ensures Lifecycle(n, false, false) + [R] == Lifecycle(n + 1, false, false)
    ensures Lifecycle(n, false, false) + [E] == Lifecycle(n, true, false)
    ensures forall e: bool :: Lifecycle(n, e, false) + [S] == Lifecycle(n, e, true)
  {
  }

  lemma ReachedNext(p: Phase, w: seq<Letter>, l: Letter)
    requires Reached(p, w)
    ensures Reached(PhaseNext(p, l), w + [l])
  {
    if p == Fresh && l == I {
      assert w + [l] == Lifecycle(0, false, false);
    } else if p == Active {
      var n: nat :| w == Lifecycle(n, false, false);
      LifecycleGrows(n);
    } else if p == Past && l == S {
      var n: nat :| w == Lifecycle(n, true, false);
      LifecycleGrows(n);
    }
  }

  lemma {:induction false} PhaseMeansLifecycle(stream: seq<Event>, id: string)
    ensures Reached(PhaseOf(stream, id), Word(stream, id))
  {
    if stream != [] {
      var k := |stream| - 1;
      PhaseMeansLifecycle(stream[..k], id);
      if IsLeaseEvent(stream[k]) && stream[k].id == id {
        ReachedNext(PhaseOf(stream[..k], id), Word(stream[..k], id), LetterOf(stream[k]));
      }
    }
  }

  // ----- Requests that overlap on a lease -----

  /** The lease is in the table but its lease.issued event is not written yet. */
  predicate Creating(q: Req, id: string) {
    (q.CreateBuild? || q.CreateEmit? || q.CreateUndo?) && q.id == id
  }

  /** The lease.surrendered event is written but the lease is not marked yet. */
  predicate Marking(q: Req, id: string) {
    q.SurrenderMark? && q.id == id
  }

  /** A DELETE between its Get and its mark. */
  predicate Surrendering(q: Req, id: string) {
    (q.SurrenderHash? && q.copy.id == id) || (q.SurrenderEmit? && q.copy.id == id) || Marking(q, id)
  }

  predicate Renewing(q: Req, id: string) {
    q.RenewEmit? && q.copy.id == id
  }

  /** A sweep that has taken the lease and not emitted for it yet. */
  predicate Sweeping(q: Req, id: string) {
    q.SweepEmit? && exists i :: 0 <= i < |q.left| && q.left[i].id == id
  }

  /** The request has read or written this lease and not settled what the stream says about it. */
  predicate Engaged(q: Req, id: string) {
    Creating(q, id) || Surrendering(q, id) || Renewing(q, id) || Sweeping(q, id)
  }

  /** Any two engaged requests conflict, except two renewals. */
  predicate Conflict(q: Req, r: Req, id: string) {
    Engaged(q, id) && Engaged(r, id) && !(Renewing(q, id) && Renewing(r, id))
  }

  ghost predicate Clash(s: State, id: string) {
    exists a, b :: a != b && a in s.inflight && b in s.inflight && Conflict(s.inflight[a], s.inflight[b], id)
  }

  /** No state of the run has conflicting requests on this lease. */
  ghost predicate NeverClash(c: Config, s: State, steps: seq<Step>, id: string)
    decreases |steps|
  {
    !Clash(s, id) && (steps == [] || NeverClash(c, Next(c, s, steps[0]), steps[1..], id))
  }

  // ----- What such a run keeps -----

  /** What a request in flight knows about the phase of the lease. */
  ghost predicate ReqLife(w: World, q: Req, id: string) {
    var p := PhaseOf(w.stream, id);
    && (Creating(q, id) ==> p == Fresh && id in w.records)
    && (Renewing(q, id) ==> p == Active && id in w.records)
    && (q.RenewKill? && q.id == id ==> p != Fresh)
    && (Surrendering(q, id) ==> id in w.records && if Marking(q, id) then p == Ended else p == Active || p == Past)
    && (Sweeping(q, id) ==> p == Active && id in w.records && w.records[id].expiredEmit && Once(q.left, id))
  }

  ghost predicate Once(left: seq<Lease>, id: string) {
    forall i, j | 0 <= i < j < |left| :: left[i].id != id || left[j].id != id
  }

  /** The flags of the lease agree with the phase, given whether a create or a mark is under way. */
  ghost predicate TableLife(w: World, creating: bool, marking: bool, id: string) {
    var p := PhaseOf(w.stream, id);
    && p != Wrong && (id !in w.records ==> p == Fresh)
    && (id in w.present && id in w.records ==>
          var l := w.records[id];
          && (p == Fresh ==> creating && !l.surrendered && !l.expiredEmit)
          && (p == Past ==> l.expiredEmit)
          && (p == Ended ==> l.surrendered || marking)
          && (l.expiredEmit ==> w.clock > l.expiresAt))
  }

  ghost predicate Keyed(w: World) {
    w.present <= w.records.Keys && forall id | id in w.records :: w.records[id].id == id
  }

  lemma KeyedWorld(c: Config, w: World)
    requires WorldOk(c, w)
    ensures Keyed(w)
  {
    forall id | id in w.records ensures w.records[id].id == id {
      assert RecordOk(w, id);
    }
  }

  // ----- One step keeps it -----

  predicate ThenCreating(next: Option<Req>, id: string) {
    next.Some? && Creating(next.value, id)
  }

  predicate ThenMarking(next: Option<Req>, id: string) {
    next.Some? && Marking(next.value, id)
  }

  /** What holds before a step of q; creating and marking speak of the other requests. Whoever is
      engaged, before or after, has the lease to itself. */
  ghost predicate Ready(w: World, q: Req, next: Option<Req>, creating: bool, marking: bool, id: string) {
    && Keyed(w) && TableLife(w, creating || Creating(q, id), marking || Marking(q, id), id) && ReqLife(w, q, id)
    && (Engaged(q, id) || (next.Some? && Engaged(next.value, id)) ==> !creating && !marking)
  }

  /** What another request can rely on: the phase moves only for an engaged request, never back to
      the start, and a renewal leaves it active. */
  ghost predicate Frame(w: World, w': World, q: Req, id: string) {
    var p, p' := PhaseOf(w.stream, id), PhaseOf(w'.stream, id);
    && (p' == p || Engaged(q, id)) && (p != Fresh ==> p' != Fresh) && (Renewing(q, id) ==> p' == Active)
    && (id in w.records ==> id in w'.records && (w.records[id].expiredEmit ==> w'.records[id].expiredEmit))
  }

  ghost predicate Kept(w: World, w': World, q: Req, next: Option<Req>, creating: bool, marking: bool, id: string) {
    && TableLife(w', creating || ThenCreating(next, id), marking || ThenMarking(next, id), id)
    && (next.Some? ==> ReqLife(w', next.value, id)) && Frame(w, w', q, id)
  }

  /** An effect that leaves the table alone and says nothing about the lease. */
  ghost predicate Still(w: World, q: Req, e: Effect, id: string) {
    && e.change.Nothing? && |e.events| <= 1 && (e.events != [] && IsLeaseEvent(e.events[0]) ==> e.events[0].id != id)
    && (Creating(q, id) ==> ThenCreating(e.next, id)) && !Marking(q, id) && (e.next.Some? ==> ReqLife(w, e.next.value, id))
  }

  lemma StillKeeps(w: World, clock: int, q: Req, e: Effect, creating: bool, marking: bool, id: string)
    requires Ready(w, q, e.next, creating, marking, id) && Still(w, q, e, id) && w.clock <= clock
    ensures Kept(w, Apply(w, clock, e), q, e.next, creating, marking, id)
  {
    PhaseAfter(w.stream, e.events, id);
  }

  /** An effect that says its letter about the lease and leaves the table alone. */
  ghost predicate Tells(w: World, q: Req, e: Effect, id: string) {
    && e.change.Nothing? && |e.events| == 1 && IsLeaseEvent(e.events[0]) && e.events[0].id == id && Engaged(q, id) && id in w.records
    && var p' := PhaseNext(PhaseOf(w.stream, id), LetterOf(e.events[0]));
       && p' != Wrong && p' != Fresh && (Renewing(q, id) ==> p' == Active)
       && (p' == Past ==> w.records[id].expiredEmit) && (p' == Ended ==> ThenMarking(e.next, id))
       && (e.next.Some? && Engaged(e.next.value, id) ==> Marking(e.next.value, id) && p' == Ended)
  }

  /** The phase and the records after such an effect. */
  lemma TellsMoves(w: World, clock: int, q: Req, e: Effect, id: string)
    requires Tells(w, q, e, id)
    ensures var w' := Apply(w, clock, e);
            && PhaseOf(w'.stream, id) == PhaseNext(PhaseOf(w.stream, id), LetterOf(e.events[0]))
            && w'.records == w.records && w'.present == w.present && w'.clock == clock
  {
    PhaseAfter(w.stream, e.events, id);
  }

  lemma TellsKeeps(w: World, clock: int, q: Req, e: Effect, creating: bool, marking: bool, id: string)
    requires Ready(w, q, e.next, creating, marking, id) && Tells(w, q, e, id) && w.clock <= clock
    ensures Kept(w, Apply(w, clock, e), q, e.next, creating, marking, id)
  {
    TellsMoves(w, clock, q, e, id);
    assert TableLife(Apply(w, clock, e), creating || ThenCreating(e.next, id), marking || ThenMarking(e.next, id), id);
  }

  // Create.

  predicate CreateReads(q: Req) {
    q.CreateBegun? || q.CreateAdmit? || q.CreateCheck? || q.CreateDeny? || q.CreateFetch? || q.CreateBuild? || q.CreateReply?
  }

  lemma CreateReadsStill(c: Config, w: World, rid: Rid, q: Req, x: Input, id: string)
    requires CreateReads(q) && ReqLife(w, q, id)
    ensures Still(w, q, CreateStep(c, w, rid, q, x), id)
  {
  }

  lemma CreateStoreKeeps(c: Config, w: World, rid: Rid, q: Req, x: Input, creating: bool, marking: bool, id: string)
    requires q.CreateStore? && InputOk(w, q, x) && Ready(w, q, CreateStep(c, w, rid, q, x).next, creating, marking, id)
    ensures var e := CreateStep(c, w, rid, q, x); Kept(w, Apply(w, x.t2, e), q, e.next, creating, marking, id)
  {
    PhaseAfter(w.stream, [], id);
  }

  lemma CreateTells(c: Config, w: World, rid: Rid, q: Req, x: Input, id: string)
    requires q.CreateEmit? && q.id == id && x.ok && ReqLife(w, q, id)
    ensures Tells(w, q, CreateStep(c, w, rid, q, x), id)
  {
  }

  lemma CreateEmitStill(c: Config, w: World, rid: Rid, q: Req, x: Input, id: string)
    requires q.CreateEmit? && !(q.id == id && x.ok) && ReqLife(w, q, id)
    ensures Still(w, q, CreateStep(c, w, rid, q, x), id)
  {
  }

  lemma CreateUndoKeeps(c: Config, w: World, rid: Rid, q: Req, x: Input, creating: bool, marking: bool, id: string)
    requires q.CreateUndo? && InputOk(w, q, x) && Ready(w, q, CreateStep(c, w, rid, q, x).next, creating, marking, id)
    ensures var e := CreateStep(c, w, rid, q, x); Kept(w, Apply(w, x.t2, e), q, e.next, creating, marking, id)
  {
    PhaseAfter(w.stream, [], id);
  }

  lemma CreateKeeps(c: Config, w: World, rid: Rid, q: Req, x: Input, creating: bool, marking: bool, id: string)
    requires IsCreate(q) && InputOk(w, q, x) && Ready(w, q, CreateStep(c, w, rid, q, x).next, creating, marking, id)
    ensures var e := CreateStep(c, w, rid, q, x); Kept(w, Apply(w, x.t2, e), q, e.next, creating, marking, id)
  {
    if q.CreateStore? {
      CreateStoreKeeps(c, w, rid, q, x, creating, marking, id);
    } else if q.CreateEmit? && q.id == id && x.ok {
      CreateTells(c, w, rid, q, x, id);
      TellsKeeps(w, x.t2, q, CreateStep(c, w, rid, q, x), creating, marking, id);
    } else if q.CreateUndo? {
      CreateUndoKeeps(c, w, rid, q, x, creating, marking, id);
    } else {
      if q.CreateEmit? {
        CreateEmitStill(c, w, rid, q, x, id);
      } else {
        CreateReadsStill(c, w, rid, q, x, id);
      }
      StillKeeps(w, x.t2, q, CreateStep(c, w, rid, q, x), creating, marking, id);
    }
  }

  // Renew.

  lemma RenewReadsStill(w: World, rid: Rid, q: Req, x: Input, id: string)
    requires q.RenewAdmit? || q.RenewGet? || q.RenewPolicy?
    ensures Still(w, q, RenewStep(w, rid, q, x), id)
  {
  }

  lemma RenewStoreKeeps(w: World, rid: Rid, q: Req, x: Input, creating: bool, marking: bool, id: string)
    requires q.RenewStore? && InputOk(w, q, x) && Ready(w, q, RenewStep(w, rid, q, x).next, creating, marking, id)
    ensures var e := RenewStep(w, rid, q, x); Kept(w, Apply(w, x.t2, e), q, e.next, creating, marking, id)
  {
    var e := RenewStep(w, rid, q, x);
    PhaseAfter(w.stream, [], id);
    assert q.copy.id in Table(w) ==> Table(w)[q.copy.id] == w.records[q.copy.id];
    if e.change.Puts? {
      RenewedRecord(w, q, x, id);
    }
  }

  /** What a successful renewal finds and leaves. */
  lemma RenewedRecord(w: World, q: Req, x: Input, id: string)
    requires q.RenewStore? && Keyed(w) && LeaseStore.RenewCheck(Table(w), q.copy.id, x.t, q.ttl, x.t2).Renewed?
    ensures var l := LeaseStore.RenewCheck(Table(w), q.copy.id, x.t, q.ttl, x.t2).lease;
            && q.copy.id in w.present && q.copy.id in w.records && l == w.records[q.copy.id].(expiresAt := x.t2 + q.ttl)
            && l.id == q.copy.id && !l.surrendered && x.t <= w.records[q.copy.id].expiresAt
  {
    assert Table(w)[q.copy.id] == w.records[q.copy.id];
  }

  lemma RenewTells(w: World, rid: Rid, q: Req, x: Input, id: string)
    requires q.RenewEmit? && q.copy.id == id && x.ok && ReqLife(w, q, id) && id in w.records
    ensures Tells(w, q, RenewStep(w, rid, q, x), id)
  {
  }

  lemma RenewEmitStill(w: World, rid: Rid, q: Req, x: Input, id: string)
    requires q.RenewEmit? && !(q.copy.id == id && x.ok) && ReqLife(w, q, id)
    ensures Still(w, q, RenewStep(w, rid, q, x), id)
  {
  }

  /** Marking a lease that has been issued. */
  lemma MarkKeeps(w: World, clock: int, q: Req, e: Effect, creating: bool, marking: bool, id: string)
    requires e.change.Marks? && e.events == [] && e.next.None? && w.clock <= clock && Ready(w, q, e.next, creating, marking, id)
    requires !Engaged(q, id) || Marking(q, id)
    requires e.change.id == id ==> PhaseOf(w.stream, id) != Fresh
    requires Marking(q, id) ==> e.change.id == id
    ensures Kept(w, Apply(w, clock, e), q, e.next, creating, marking, id)
  {
    PhaseAfter(w.stream, [], id);
    assert id in Table(w) ==> Table(w)[id] == w.records[id];
  }

  lemma RenewKeeps(w: World, rid: Rid, q: Req, x: Input, creating: bool, marking: bool, id: string)
    requires IsRenew(q) && InputOk(w, q, x) && Ready(w, q, RenewStep(w, rid, q, x).next, creating, marking, id)
    ensures var e := RenewStep(w, rid, q, x); Kept(w, Apply(w, x.t2, e), q, e.next, creating, marking, id)
  {
    if q.RenewStore? {
      RenewStoreKeeps(w, rid, q, x, creating, marking, id);
    } else if q.RenewEmit? && q.copy.id == id && x.ok {
      RenewTells(w, rid, q, x, id);
      TellsKeeps(w, x.t2, q, RenewStep(w, rid, q, x), creating, marking, id);
    } else if q.RenewKill? {
      MarkKeeps(w, x.t2, q, RenewStep(w, rid, q, x), creating, marking, id);
    } else {
      if q.RenewEmit? {
        RenewEmitStill(w, rid, q, x, id);
      } else {
        RenewReadsStill(w, rid, q, x, id);
      }
      StillKeeps(w, x.t2, q, RenewStep(w, rid, q, x), creating, marking, id);
    }
  }

  // Surrender.

  lemma SurrenderReadsStill(w: World, rid: Rid, q: Req, x: Input, creating: bool, marking: bool, id: string)
    requires q.SurrenderAdmit? || q.SurrenderGet? || q.SurrenderHash? || (q.SurrenderEmit? && !(x.ok && q.copy.id == id))
    requires Ready(w, q, SurrenderStep(w, rid, q, x).next, creating, marking, id)
    ensures Still(w, q, SurrenderStep(w, rid, q, x), id)
  {
    if q.SurrenderGet? && q.id in Table(w) {
      assert Table(w)[q.id] == w.records[q.id];
    }
  }

  lemma SurrenderTells(w: World, rid: Rid, q: Req, x: Input, id: string)
    requires q.SurrenderEmit? && q.copy.id == id && x.ok && ReqLife(w, q, id) && id in w.records
    ensures Tells(w, q, SurrenderStep(w, rid, q, x), id)
  {
  }

  lemma SurrenderKeeps(w: World, rid: Rid, q: Req, x: Input, creating: bool, marking: bool, id: string)
    requires IsSurrender(q) && InputOk(w, q, x) && Ready(w, q, SurrenderStep(w, rid, q, x).next, creating, marking, id)
    ensures var e := SurrenderStep(w, rid, q, x); Kept(w, Apply(w, x.t2, e), q, e.next, creating, marking, id)
  {
    if q.SurrenderEmit? && q.copy.id == id && x.ok {
      SurrenderTells(w, rid, q, x, id);
      TellsKeeps(w, x.t2, q, SurrenderStep(w, rid, q, x), creating, marking, id);
    } else if q.SurrenderMark? {
      MarkKeeps(w, x.t2, q, SurrenderStep(w, rid, q, x), creating, marking, id);
    } else {
      SurrenderReadsStill(w, rid, q, x, creating, marking, id);
      StillKeeps(w, x.t2, q, SurrenderStep(w, rid, q, x), creating, marking, id);
    }
  }

  // Sweep.

  /** What the table step of a sweep does to one lease. */
  lemma SweptRecord(w: World, now: int, retain: int, out: seq<Lease>, id: string)
    requires Keyed(w) && LeaseStore.SweepReturns(Table(w), now, out) && id in w.records
    ensures var l, l' := w.records[id], RecordsAfter(w, Sweeps(now, retain))[id];
            && id in RecordsAfter(w, Sweeps(now, retain)) && (id in PresentAfter(w, Sweeps(now, retain)) ==> id in w.present)
            && l'.surrendered == l.surrendered && l'.expiresAt == l.expiresAt && (l.expiredEmit ==> l'.expiredEmit)
            && (Sweeping(SweepEmit(out, 0), id) <==> id in w.present && LeaseStore.NewlyExpired(l, now))
            && (Sweeping(SweepEmit(out, 0), id) ==> l'.expiredEmit)
            && (!Sweeping(SweepEmit(out, 0), id) ==> l'.expiredEmit == l.expiredEmit)
  {
    assert id in w.present ==> id in Table(w) && Table(w)[id] == w.records[id];
  }

  lemma SweepTableKeeps(w: World, rid: Rid, q: Req, x: Input, creating: bool, marking: bool, id: string)
    requires q.SweepTable? && InputOk(w, q, x) && Ready(w, q, SweepStep(w, rid, q, x).next, creating, marking, id)
    ensures var e := SweepStep(w, rid, q, x); Kept(w, Apply(w, x.t2, e), q, e.next, creating, marking, id)
  {
    PhaseAfter(w.stream, [], id);
    if id in w.records {
      SweptRecord(w, x.t, q.retain, x.out, id);
    }
  }

  lemma SweepTells(w: World, rid: Rid, q: Req, x: Input, id: string)
    requires q.SweepEmit? && q.left != [] && q.left[0].id == id && x.ok && ReqLife(w, q, id)
    ensures Tells(w, q, SweepStep(w, rid, q, x), id)
  {
    SweptHead(q, id);
  }

  lemma SweepEmitStill(w: World, rid: Rid, q: Req, x: Input, id: string)
    requires q.SweepEmit? && !(q.left != [] && q.left[0].id == id && x.ok) && ReqLife(w, q, id)
    ensures Still(w, q, SweepStep(w, rid, q, x), id)
  {
    if q.left != [] {
      SweptHead(q, id);
    }
  }

  lemma SweptHead(q: Req, id: string)
    requires q.SweepEmit? && q.left != []
    ensures var q' := SweepEmit(q.left[1..], q.pol);
            && (Sweeping(q, id) <==> q.left[0].id == id || Sweeping(q', id))
            && (Once(q.left, id) ==> Once(q'.left, id) && (q.left[0].id == id ==> !Sweeping(q', id)))
  {
    if i :| 0 <= i < |q.left| && q.left[i].id == id {
      assert i == 0 || q.left[1..][i - 1].id == id;
    }
  }

  lemma SweepKeeps(w: World, rid: Rid, q: Req, x: Input, creating: bool, marking: bool, id: string)
    requires IsSweep(q) && InputOk(w, q, x) && Ready(w, q, SweepStep(w, rid, q, x).next, creating, marking, id)
    ensures var e := SweepStep(w, rid, q, x); Kept(w, Apply(w, x.t2, e), q, e.next, creating, marking, id)
  {
    if q.SweepTable? {
      SweepTableKeeps(w, rid, q, x, creating, marking, id);
    } else if q.SweepEmit? && q.left != [] && q.left[0].id == id && x.ok {
      SweepTells(w, rid, q, x, id);
      TellsKeeps(w, x.t2, q, SweepStep(w, rid, q, x), creating, marking, id);
    } else {
      if q.SweepEmit? {
        SweepEmitStill(w, rid, q, x, id);
      }
      StillKeeps(w, x.t2, q, SweepStep(w, rid, q, x), creating, marking, id);
    }
  }

  /** Claims, throttling and authentication failures say nothing about leases. */
  lemma FrontStill(c: Config, w: World, rid: Rid, q: Req, x: Input, id: string)
    requires IsFront(q)
    ensures Still(w, q, FrontStep(c, w, rid, q, x), id)
  {
  }

  lemma StepKeeps(c: Config, w: World, rid: Rid, q: Req, x: Input, creating: bool, marking: bool, id: string)
    requires InputOk(w, q, x) && Ready(w, q, EffectOf(c, w, rid, q, x).next, creating, marking, id)
    ensures var e := EffectOf(c, w, rid, q, x); Kept(w, Apply(w, x.t2, e), q, e.next, creating, marking, id)
  {
    if IsCreate(q) {
      CreateKeeps(c, w, rid, q, x, creating, marking, id);
    } else if IsRenew(q) {
      RenewKeeps(w, rid, q, x, creating, marking, id);
    } else if IsSurrender(q) {
      SurrenderKeeps(w, rid, q, x, creating, marking, id);
    } else if IsSweep(q) {
      SweepKeeps(w, rid, q, x, creating, marking, id);
    } else {
      FrontStill(c, w, rid, q, x, id);
      StillKeeps(w, x.t2, q, FrontStep(c, w, rid, q, x), creating, marking, id);
    }
  }

  // ----- Runs -----

  ghost predicate OtherCreating(s: State, rid: Rid, id: string) {
    exists r :: r != rid && r in s.inflight && Creating(s.inflight[r], id)
  }

  ghost predicate OtherMarking(s: State, rid: Rid, id: string) {
    exists r :: r != rid && r in s.inflight && Marking(s.inflight[r], id)
  }

  ghost predicate SomeCreating(s: State, id: string) {
    exists r :: r in s.inflight && Creating(s.inflight[r], id)
  }

  ghost predicate SomeMarking(s: State, id: string) {
    exists r :: r in s.inflight && Marking(s.inflight[r], id)
  }

  ghost predicate LifeInv(s: State, id: string) {
    && TableLife(s.w, SomeCreating(s, id), SomeMarking(s, id), id)
    && forall rid | rid in s.inflight :: ReqLife(s.w, s.inflight[rid], id)
  }

  /** An engaged request that clashes with nobody has no create and no mark beside it. */
  lemma EngagedAlone(s: State, rid: Rid, id: string)
    requires !Clash(s, id) && rid in s.inflight && Engaged(s.inflight[rid], id)
    ensures !OtherCreating(s, rid, id) && !OtherMarking(s, rid, id)
  {
    forall r | r != rid && r in s.inflight ensures !Conflict(s.inflight[rid], s.inflight[r], id) {
    }
  }

  lemma OtherKept(w: World, w': World, q: Req, r: Req, id: string)
    requires Frame(w, w', q, id) && ReqLife(w, r, id) && !Conflict(q, r, id)
    ensures ReqLife(w', r, id)
  {
  }

  /** The requests other than rid are those of before. */
  lemma OthersStay(s: State, s': State, rid: Rid, next: Option<Req>, id: string)
    requires rid in s.inflight && s'.inflight == Moved(s.inflight, rid, next)
    ensures OtherCreating(s', rid, id) == OtherCreating(s, rid, id) && OtherMarking(s', rid, id) == OtherMarking(s, rid, id)
    ensures SomeCreating(s, id) == (OtherCreating(s, rid, id) || Creating(s.inflight[rid], id))
    ensures SomeMarking(s, id) == (OtherMarking(s, rid, id) || Marking(s.inflight[rid], id))
    ensures SomeCreating(s', id) == (OtherCreating(s, rid, id) || ThenCreating(next, id))
    ensures SomeMarking(s', id) == (OtherMarking(s, rid, id) || ThenMarking(next, id))
  {
    forall r | r != rid ensures r in s'.inflight <==> r in s.inflight {
    }
    assert next.Some? ==> rid in s'.inflight && s'.inflight[rid] == next.value;
    assert next.None? ==> rid !in s'.inflight;
    assert forall r | r != rid && r in s.inflight :: s'.inflight[r] == s.inflight[r];
  }

  lemma TakeKeepsLife(c: Config, s: State, rid: Rid, x: Input, id: string)
    requires LifeInv(s, id) && Keyed(s.w) && Possible(c, s, Take(rid, x))
    requires !Clash(s, id) && !Clash(Next(c, s, Take(rid, x)), id)
    ensures LifeInv(Next(c, s, Take(rid, x)), id)
  {
    var q := s.inflight[rid];
    var e := EffectOf(c, s.w, rid, q, x);
    var s' := Next(c, s, Take(rid, x));
    OthersStay(s, s', rid, e.next, id);
    if Engaged(q, id) {
      EngagedAlone(s, rid, id);
    }
    if e.next.Some? && Engaged(e.next.value, id) {
      EngagedAlone(s', rid, id);
    }
    StepKeeps(c, s.w, rid, q, x, OtherCreating(s, rid, id), OtherMarking(s, rid, id), id);
    forall r | r in s'.inflight ensures ReqLife(s'.w, s'.inflight[r], id) {
      if r != rid {
        assert ReqLife(s.w, s.inflight[r], id) && !Conflict(q, s.inflight[r], id);
        OtherKept(s.w, s'.w, q, s.inflight[r], id);
      }
    }
  }

  lemma OtherKeepsLife(c: Config, s: State, step: Step, id: string)
    requires LifeInv(s, id) && Possible(c, s, step) && !step.Take? && s.inflight.Keys <= s.begun
    ensures LifeInv(Next(c, s, step), id)
  {
    var s' := Next(c, s, step);
    assert forall r | r in s.inflight :: r in s'.inflight && s'.inflight[r] == s.inflight[r];
    forall r | r in s'.inflight ensures ReqLife(s'.w, s'.inflight[r], id) {
      if r in s.inflight {
        assert ReqLife(s.w, s.inflight[r], id);
      }
    }
  }

  lemma {:induction false} RunKeepsLife(c: Config, s: State, steps: seq<Step>, id: string)
    requires Facts(c, s) && LifeInv(s, id) && IsRun(c, s, steps) && NeverClash(c, s, steps, id)
    ensures LifeInv(Run(c, s, steps), id)
    decreases |steps|
  {
    if steps != [] {
      KeyedWorld(c, s.w);
      NextKeepsFacts(c, s, steps[0]);
      if steps[0].Take? {
        TakeKeepsLife(c, s, steps[0].rid, steps[0].x, id);
      } else {
        OtherKeepsLife(c, s, steps[0], id);
      }
      RunKeepsLife(c, Next(c, s, steps[0]), steps[1..], id);
    }
  }

  lemma InitLife(c: Config, s: State, id: string)
    requires Init(c, s)
    ensures LifeInv(s, id)
  {
  }

  /** In every run, with any audit writes failing, in which no two requests ever conflict on a lease,
      its events form a word of: empty, or issued renewed* expired? surrendered?. What the requests
      on other leases do, and how they overlap with anything, does not matter. */
  lemma EventsTellALife(c: Config, s: State, steps: seq<Step>, id: string)
    requires Init(c, s) && IsRun(c, s, steps) && NeverClash(c, s, steps, id)
    ensures IsLifecycle(Word(Run(c, s, steps).w.stream, id))
  {
    InitFacts(c, s);
    InitLife(c, s, id);
    RunKeepsLife(c, s, steps, id);
    PhaseGivesLifecycle(Run(c, s, steps).w.stream, id);
  }

  /** A run in which a handler starts only after the previous one has returned. */
  ghost predicate IsSerial(c: Config, s: State, steps: seq<Step>)
    decreases |steps|
  {
    steps == [] || (
      && Possible(c, s, steps[0]) && (steps[0].Take? || steps[0].Reload? || s.inflight == map[])
      && IsSerial(c, Next(c, s, steps[0]), steps[1..]))
  }

  /** Runs without any overlap are among those without conflict. */
  lemma {:induction false} SerialNeverClashes(c: Config, s: State, steps: seq<Step>, id: string)
    requires IsSerial(c, s, steps) && forall a, b | a in s.inflight && b in s.inflight :: a == b
    ensures IsRun(c, s, steps) && NeverClash(c, s, steps, id)
    decreases |steps|
  {
    if steps != [] {
      SerialNeverClashes(c, Next(c, s, steps[0]), steps[1..], id);
    }
  }

  lemma PhaseGivesLifecycle(stream: seq<Event>, id: string)
    requires PhaseOf(stream, id) != Wrong
    ensures IsLifecycle(Word(stream, id))
  {
    PhaseMeansLifecycle(stream, id);
    var w := Word(stream, id);
    match PhaseOf(stream, id)
    case Fresh =>
    case Active => var n: nat :| w == Lifecycle(n, false, false);
    case Past => var n: nat :| w == Lifecycle(n, true, false);
    case Ended => var n: nat, e: bool :| w == Lifecycle(n, e, true);
  }
}
