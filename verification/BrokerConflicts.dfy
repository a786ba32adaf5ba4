/** Two requests that conflict on a lease can break the order of its events: wherever a run brings
    them together, the two of them alone have a way to go on that does. */
module BrokerConflicts {
  import opened Base
  import opened Broker
  import opened BrokerFacts
  import opened BrokerWords

  // ----- Words that are no life -----

  lemma LifecycleShape(n: nat, expired: bool, surrendered: bool)
    ensures var l := Lifecycle(n, expired, surrendered);
            && |l| > 0 && l[0] == I && (forall i | 0 < i < |l| :: l[i] != I)
            && (forall i | 0 <= i < |l| - 1 :: l[i] != S)
            && (forall i | 0 <= i < |l| - 1 && l[i] == E :: l[|l| - 1] == S && i == |l| - 2)
  {
  }

  /** The last letter of a life: nothing follows S, only S follows E, I is the first and only first. */
  lemma LastLetter(word: seq<Letter>, l: Letter)
    requires IsLifecycle(word + [l])
    ensures S !in word && (E in word ==> l == S) && (word != [] ==> I in word && l != I) && (word == [] ==> l == I)
  {
    var w := word + [l];
    var n: nat, expired: bool, surrendered: bool :| w == Lifecycle(n, expired, surrendered);
    LifecycleShape(n, expired, surrendered);
    forall i | 0 <= i < |word| ensures word[i] != S && (word[i] == E ==> l == S) {
      assert w[i] == word[i];
    }
    assert w[|word|] == l && (word != [] ==> w[0] == word[0]);
  }

  lemma NoLifeWithoutIssue(word: seq<Letter>)
    requires word != [] && I !in word
    ensures !IsLifecycle(word)
  {
    forall n: nat, expired: bool, surrendered: bool ensures word != Lifecycle(n, expired, surrendered) {
      LifecycleShape(n, expired, surrendered);
      assert word[0] in word;
    }
  }

  function CountS(word: seq<Letter>): nat {
    if word == [] then 0 else CountS(word[..|word| - 1]) + if word[|word| - 1] == S then 1 else 0
  }

  lemma {:induction false} CountIn(word: seq<Letter>)
    ensures CountS(word) > 0 <==> S in word
  {
    if word != [] {
      CountIn(word[..|word| - 1]);
      assert word == word[..|word| - 1] + [word[|word| - 1]];
    }
  }

  lemma CountMore(word: seq<Letter>, l: Letter)
    ensures CountS(word + [l]) == CountS(word) + if l == S then 1 else 0
  {
    assert (word + [l])[..|word|] == word;
  }

  lemma {:induction false} LifeHasOneS(word: seq<Letter>)
    requires CountS(word) >= 2
    ensures !IsLifecycle(word)
  {
    var k := |word| - 1;
    var before := word[..k];
    CountIn(before);
    assert word == before + [word[k]];
    if IsLifecycle(word) {
      LastLetter(before, word[k]);
    }
  }

  lemma WordMore(stream: seq<Event>, events: seq<Event>, id: string)
    requires |events| <= 1
    ensures Word(stream + events, id) ==
            Word(stream, id) + if events != [] && IsLeaseEvent(events[0]) && events[0].id == id then [LetterOf(events[0])] else []
  {
    if events == [] {
      assert stream + events == stream;
    } else {
      assert (stream + events)[..|stream|] == stream;
    }
  }

  // ----- Going on -----

  /** From s to s' by steps of requests a and b alone. */
  ghost predicate Continues(c: Config, s: State, s': State, a: Rid, b: Rid) {
    exists steps :: IsRun(c, s, steps) && Run(c, s, steps) == s' && TakesOf(steps, a, b)
  }

  ghost predicate TakesOf(steps: seq<Step>, a: Rid, b: Rid) {
    forall i | 0 <= i < |steps| :: steps[i].Take? && (steps[i].rid == a || steps[i].rid == b)
  }

  lemma RunOn(c: Config, s: State, steps: seq<Step>)
    requires steps != []
    ensures Run(c, s, steps) == Run(c, Next(c, s, steps[0]), steps[1..])
    ensures IsRun(c, s, steps) <==> Possible(c, s, steps[0]) && IsRun(c, Next(c, s, steps[0]), steps[1..])
  {
  }

  lemma {:induction false} Concat(c: Config, s: State, a: seq<Step>, b: seq<Step>)
    requires IsRun(c, s, a) && IsRun(c, Run(c, s, a), b)
    ensures IsRun(c, s, a + b) && Run(c, s, a + b) == Run(c, Run(c, s, a), b)
    decreases |a|
  {
    if a == [] {
      assert a + b == b;
    } else {
      assert a + b != [] && (a + b)[0] == a[0] && (a + b)[1..] == a[1..] + b;
      RunOn(c, s, a);
      Concat(c, Next(c, s, a[0]), a[1..], b);
      RunOn(c, s, a + b);
    }
  }

  lemma StaysThere(c: Config, s: State, a: Rid, b: Rid)
    ensures Continues(c, s, s, a, b)
  {
    assert IsRun(c, s, []) && Run(c, s, []) == s && TakesOf([], a, b);
  }

  lemma ContinuesFurther(c: Config, s: State, s': State, s'': State, a: Rid, b: Rid)
    requires Continues(c, s, s', a, b) && Continues(c, s', s'', a, b)
    ensures Continues(c, s, s'', a, b)
  {
    var p :| IsRun(c, s, p) && Run(c, s, p) == s' && TakesOf(p, a, b);
    var q :| IsRun(c, s', q) && Run(c, s', q) == s'' && TakesOf(q, a, b);
    Concat(c, s, p, q);
    assert TakesOf(p + q, a, b);
  }

  lemma TakesOneStep(c: Config, s: State, a: Rid, b: Rid, x: Input)
    requires Possible(c, s, Take(a, x))
    ensures Continues(c, s, Next(c, s, Take(a, x)), a, b)
  {
    var steps := [Take(a, x)];
    var s' := Next(c, s, steps[0]);
    assert steps[1..] == [] && IsRun(c, s', []) && Run(c, s', []) == s';
    assert IsRun(c, s, steps) && Run(c, s, steps) == s' && TakesOf(steps, a, b);
  }

  lemma Swapped(c: Config, s: State, s': State, a: Rid, b: Rid)
    requires Continues(c, s, s', a, b)
    ensures Continues(c, s, s', b, a)
  {
    var p :| IsRun(c, s, p) && Run(c, s, p) == s' && TakesOf(p, a, b);
    assert TakesOf(p, b, a);
  }

  // ----- Each engaged request can still speak -----

  predicate CanSpeak(q: Req, id: string) {
    Engaged(q, id) && !q.CreateUndo? && !q.SurrenderMark?
  }

  function Voice(q: Req): Letter {
    if q.CreateBuild? || q.CreateEmit? then I else if q.RenewEmit? then R else if q.SweepEmit? then E else S
  }

  /** An input with the clock standing still; ok is the fate of the audit write. */
  function Now(w: World, ok: bool): Input {
    Input(w.clock, w.clock, ok, false, NoProvider, "", "", [])
  }

  /** What a step of an engaged request does to the stream and to itself. */
  ghost predicate SpeaksOrGoesOn(s: State, s': State, rid: Rid, q: Req, id: string) {
    && (forall r | r != rid && r in s.inflight :: r in s'.inflight && s'.inflight[r] == s.inflight[r])
    && (|| Word(s'.w.stream, id) == Word(s.w.stream, id) + [Voice(q)]
        || (&& Word(s'.w.stream, id) == Word(s.w.stream, id) && rid in s'.inflight && CanSpeak(s'.inflight[rid], id)
            && Voice(s'.inflight[rid]) == Voice(q) && Distance(s'.inflight[rid]) < Distance(q)))
  }

  /** How many steps before it speaks, at most. */
  function Distance(q: Req): nat {
    if q.CreateBuild? || q.SurrenderHash? then 1 else if q.SweepEmit? then |q.left| else 0
  }

  /** The write that speaks succeeds; those a sweep makes for other leases on the way fail. */
  function WritesNow(q: Req, id: string): bool {
    !(q.SweepEmit? && q.left != [] && q.left[0].id != id)
  }

  /** The effect that speaks, or brings the request nearer to it. */
  ghost predicate Nearer(q: Req, e: Effect, id: string) {
    && |e.events| <= 1
    && if e.events != [] then IsLeaseEvent(e.events[0]) && e.events[0].id == id && LetterOf(e.events[0]) == Voice(q)
       else e.next.Some? && CanSpeak(e.next.value, id) && Voice(e.next.value) == Voice(q) && Distance(e.next.value) < Distance(q)
  }

  lemma CreateSpeaks(c: Config, w: World, rid: Rid, q: Req, id: string)
    requires Creating(q, id) && !q.CreateUndo?
    ensures Nearer(q, CreateStep(c, w, rid, q, Now(w, true)), id)
  {
  }

  lemma RenewSpeaks(w: World, rid: Rid, q: Req, id: string)
    requires Renewing(q, id)
    ensures Nearer(q, RenewStep(w, rid, q, Now(w, true)), id)
  {
  }

  lemma SurrenderSpeaks(w: World, rid: Rid, q: Req, id: string)
    requires Surrendering(q, id) && !q.SurrenderMark?
    ensures Nearer(q, SurrenderStep(w, rid, q, Now(w, true)), id)
  {
  }

  lemma SweepSpeaks(w: World, rid: Rid, q: Req, id: string)
    requires Sweeping(q, id)
    ensures Nearer(q, SweepStep(w, rid, q, Now(w, WritesNow(q, id))), id)
  {
    SweptHead(q, id);
  }

  lemma SpeakEffect(c: Config, w: World, rid: Rid, q: Req, id: string)
    requires CanSpeak(q, id)
    ensures Nearer(q, EffectOf(c, w, rid, q, Now(w, WritesNow(q, id))), id)
  {
    if q.SweepEmit? {
      SweepSpeaks(w, rid, q, id);
    } else if IsCreate(q) {
      CreateSpeaks(c, w, rid, q, id);
    } else if IsRenew(q) {
      RenewSpeaks(w, rid, q, id);
    } else {
      SurrenderSpeaks(w, rid, q, id);
    }
  }

  lemma SpeakStep(c: Config, s: State, rid: Rid, id: string)
    requires rid in s.inflight && CanSpeak(s.inflight[rid], id)
    ensures var q := s.inflight[rid]; var step := Take(rid, Now(s.w, WritesNow(q, id)));
            Possible(c, s, step) && SpeaksOrGoesOn(s, Next(c, s, step), rid, q, id)
  {
    var q := s.inflight[rid];
    var x := Now(s.w, WritesNow(q, id));
    SpeakEffect(c, s.w, rid, q, id);
    WordMore(s.w.stream, EffectOf(c, s.w, rid, q, x).events, id);
  }

  lemma {:induction false} Speak(c: Config, s: State, a: Rid, b: Rid, id: string) returns (s': State)
    requires a in s.inflight && CanSpeak(s.inflight[a], id)
    ensures Continues(c, s, s', a, b) && Word(s'.w.stream, id) == Word(s.w.stream, id) + [Voice(s.inflight[a])]
    ensures forall r | r != a && r in s.inflight :: r in s'.inflight && s'.inflight[r] == s.inflight[r]
    decreases Distance(s.inflight[a])
  {
    var q := s.inflight[a];
    var x := Now(s.w, WritesNow(q, id));
    SpeakStep(c, s, a, id);
    TakesOneStep(c, s, a, b, x);
    var s1 := Next(c, s, Take(a, x));
    s' := s1;
    if Word(s1.w.stream, id) != Word(s.w.stream, id) + [Voice(q)] {
      s' := Speak(c, s1, a, b, id);
      ContinuesFurther(c, s, s1, s', a, b);
    }
  }

  // ----- What engaged requests have said -----

  ghost predicate SaidBy(stream: seq<Event>, rid: Rid, id: string) {
    exists n :: 0 <= n < |stream| && Says(stream[n], rid, id)
  }

  predicate Says(e: Event, rid: Rid, id: string) {
    e.Surrendered? && e.rid == rid && e.id == id
  }

  /** A create that has not spoken is the lease's only one, and nobody else issued it. */
  ghost predicate CreatorsAlone(s: State, id: string) {
    && (SomeCreating(s, id) ==> id in s.w.records && I !in Word(s.w.stream, id))
    && (forall a, b | a in s.inflight && b in s.inflight && Creating(s.inflight[a], id) && Creating(s.inflight[b], id) :: a == b)
  }

  /** A DELETE about to mark has spoken. */
  ghost predicate MarkersSaid(s: State, id: string) {
    forall rid | rid in s.inflight && Marking(s.inflight[rid], id) :: SaidBy(s.w.stream, rid, id)
  }

  ghost predicate SaidInv(s: State, id: string) {
    CreatorsAlone(s, id) && MarkersSaid(s, id)
  }

  lemma CreateSays(c: Config, w: World, rid: Rid, q: Req, x: Input, id: string)
    requires IsCreate(q)
    ensures var e := CreateStep(c, w, rid, q, x);
            && |e.events| <= 1 && (e.events != [] && e.events[0].Issued? && e.events[0].id == id ==> Creating(q, id) && !ThenCreating(e.next, id))
            && (ThenCreating(e.next, id) ==> (Creating(q, id) && e.events == []) || (q.CreateStore? && x.id == id && e.change.Puts? && e.change.lease.id == id))
            && !ThenMarking(e.next, id)
  {
  }

  /** Of the other handlers, only a DELETE that has just written its event goes on to mark. */
  ghost predicate SpeaksOfDelete(q: Req, e: Effect, rid: Rid, id: string) {
    && |e.events| <= 1 && (e.events != [] ==> !e.events[0].Issued?) && !ThenCreating(e.next, id)
    && (ThenMarking(e.next, id) ==> Marking(q, id) || (e.events != [] && Says(e.events[0], rid, id)))
  }

  lemma RenewSays(w: World, rid: Rid, q: Req, x: Input, id: string)
    requires IsRenew(q)
    ensures SpeaksOfDelete(q, RenewStep(w, rid, q, x), rid, id)
  {
  }

  lemma SurrenderSays(w: World, rid: Rid, q: Req, x: Input, id: string)
    requires IsSurrender(q)
    ensures SpeaksOfDelete(q, SurrenderStep(w, rid, q, x), rid, id)
  {
  }

  lemma SweepSays(w: World, rid: Rid, q: Req, x: Input, id: string)
    requires IsSweep(q)
    ensures SpeaksOfDelete(q, SweepStep(w, rid, q, x), rid, id)
  {
  }

  lemma FrontSays(c: Config, w: World, rid: Rid, q: Req, x: Input, id: string)
    requires IsFront(q)
    ensures SpeaksOfDelete(q, FrontStep(c, w, rid, q, x), rid, id)
  {
  }

  /** What a step says, whatever the handler. */
  ghost predicate StepSays(w: World, q: Req, e: Effect, rid: Rid, x: Input, id: string) {
    && |e.events| <= 1 && (e.events != [] && e.events[0].Issued? && e.events[0].id == id ==> Creating(q, id) && !ThenCreating(e.next, id))
    && (ThenCreating(e.next, id) ==>
          (Creating(q, id) && e.events == []) || (q.CreateStore? && x.id == id && e.change.Puts? && e.change.lease.id == id))
    && (ThenMarking(e.next, id) ==> Marking(q, id) || (e.events != [] && Says(e.events[0], rid, id)))
  }

  lemma EachStepSays(c: Config, w: World, rid: Rid, q: Req, x: Input, id: string)
    ensures StepSays(w, q, EffectOf(c, w, rid, q, x), rid, x, id)
  {
    if IsCreate(q) {
      CreateSays(c, w, rid, q, x, id);
    } else if IsRenew(q) {
      RenewSays(w, rid, q, x, id);
    } else if IsSurrender(q) {
      SurrenderSays(w, rid, q, x, id);
    } else if IsSweep(q) {
      SweepSays(w, rid, q, x, id);
    } else {
      FrontSays(c, w, rid, q, x, id);
    }
  }

  lemma {:induction false} UnknownHasNoWord(w: World, n: nat, id: string)
    requires n <= |w.stream| && id !in w.records && forall k | 0 <= k < |w.stream| :: EventOk(w, w.stream[k])
    ensures Word(w.stream[..n], id) == []
  {
    if n > 0 {
      UnknownHasNoWord(w, n - 1, id);
      assert w.stream[..n][..n - 1] == w.stream[..n - 1] && EventOk(w, w.stream[n - 1]);
    }
  }

  lemma TakeKeepsMarkers(c: Config, s: State, rid: Rid, x: Input, id: string)
    requires MarkersSaid(s, id) && Possible(c, s, Take(rid, x))
    ensures MarkersSaid(Next(c, s, Take(rid, x)), id)
  {
    var e := EffectOf(c, s.w, rid, s.inflight[rid], x);
    var s' := Next(c, s, Take(rid, x));
    EachStepSays(c, s.w, rid, s.inflight[rid], x, id);
    forall r | r in s'.inflight && Marking(s'.inflight[r], id) ensures SaidBy(s'.w.stream, r, id) {
      StillSaid(s.w.stream, e.events, r, id);
    }
  }

  /** An I enters the word only by a create that is then done with. */
  lemma StepIssues(w: World, q: Req, e: Effect, rid: Rid, x: Input, id: string)
    requires StepSays(w, q, e, rid, x, id)
    ensures !Creating(q, id) || ThenCreating(e.next, id) ==> (I in Word(w.stream + e.events, id) ==> I in Word(w.stream, id))
  {
    WordMore(w.stream, e.events, id);
  }

  /** How a step bears on the creates of one lease. */
  lemma StepCreates(c: Config, w: World, rid: Rid, q: Req, x: Input, id: string)
    requires w.present <= w.records.Keys && (id !in w.records ==> Word(w.stream, id) == []) && InputOk(w, q, x)
    ensures var e := EffectOf(c, w, rid, q, x); var w' := Apply(w, x.t2, e);
            && (ThenCreating(e.next, id) && !Creating(q, id) ==> id !in w.records && id in w'.records && I !in Word(w'.stream, id))
            && (!Creating(q, id) || ThenCreating(e.next, id) ==> (I in Word(w'.stream, id) ==> I in Word(w.stream, id)))
            && (id in w.records ==> id in w'.records)
  {
    var e := EffectOf(c, w, rid, q, x);
    EachStepSays(c, w, rid, q, x, id);
    StepIssues(w, q, e, rid, x, id);
    KeysKept(w, e.change);
  }

  lemma UnknownIsSilent(c: Config, w: World, id: string)
    requires WorldOk(c, w)
    ensures id !in w.records ==> Word(w.stream, id) == []
  {
    if id !in w.records {
      UnknownHasNoWord(w, |w.stream|, id);
      assert w.stream[..|w.stream|] == w.stream;
    }
  }

  lemma CreatorsAfter(s: State, s': State, rid: Rid, next: Option<Req>, id: string)
    requires CreatorsAlone(s, id) && rid in s.inflight && s'.inflight == Moved(s.inflight, rid, next)
    requires id in s.w.records ==> id in s'.w.records
    requires ThenCreating(next, id) && !Creating(s.inflight[rid], id) ==>
               id !in s.w.records && id in s'.w.records && I !in Word(s'.w.stream, id)
    requires !Creating(s.inflight[rid], id) || ThenCreating(next, id) ==>
               (I in Word(s'.w.stream, id) ==> I in Word(s.w.stream, id))
    ensures CreatorsAlone(s', id)
  {
    OthersStay(s, s', rid, next, id);
    forall r | r in s'.inflight && r != rid ensures r in s.inflight && s'.inflight[r] == s.inflight[r] {
    }
  }

  lemma TakeKeepsCreators(c: Config, s: State, rid: Rid, x: Input, id: string)
    requires CreatorsAlone(s, id) && WorldOk(c, s.w) && Possible(c, s, Take(rid, x))
    ensures CreatorsAlone(Next(c, s, Take(rid, x)), id)
  {
    UnknownIsSilent(c, s.w, id);
    StepCreates(c, s.w, rid, s.inflight[rid], x, id);
    CreatorsAfter(s, Next(c, s, Take(rid, x)), rid, EffectOf(c, s.w, rid, s.inflight[rid], x).next, id);
  }

  lemma StillSaid(stream: seq<Event>, events: seq<Event>, rid: Rid, id: string)
    ensures SaidBy(stream, rid, id) ==> SaidBy(stream + events, rid, id)
    ensures events != [] && Says(events[0], rid, id) ==> SaidBy(stream + events, rid, id)
  {
    if n :| 0 <= n < |stream| && Says(stream[n], rid, id) {
      assert (stream + events)[n] == stream[n];
    }
    if events != [] {
      assert (stream + events)[|stream|] == events[0];
    }
  }

  lemma OtherKeepsSaid(c: Config, s: State, step: Step, id: string)
    requires SaidInv(s, id) && Possible(c, s, step) && !step.Take? && s.inflight.Keys <= s.begun
    ensures SaidInv(Next(c, s, step), id)
  {
    var s' := Next(c, s, step);
    assert forall r | r in s.inflight :: r in s'.inflight && s'.inflight[r] == s.inflight[r];
    assert forall r | r in s'.inflight && r !in s.inflight :: !Creating(s'.inflight[r], id) && !Marking(s'.inflight[r], id);
  }

  lemma {:induction false} RunKeepsSaid(c: Config, s: State, steps: seq<Step>, id: string)
    requires Facts(c, s) && SaidInv(s, id) && IsRun(c, s, steps)
    ensures SaidInv(Run(c, s, steps), id)
    decreases |steps|
  {
    if steps != [] {
      NextKeepsFacts(c, s, steps[0]);
      if steps[0].Take? {
        TakeKeepsCreators(c, s, steps[0].rid, steps[0].x, id);
        TakeKeepsMarkers(c, s, steps[0].rid, steps[0].x, id);
      } else {
        OtherKeepsSaid(c, s, steps[0], id);
      }
      RunKeepsSaid(c, Next(c, s, steps[0]), steps[1..], id);
    }
  }

  lemma ReachableSaid(c: Config, s: State, steps: seq<Step>, id: string)
    requires Init(c, s) && IsRun(c, s, steps)
    ensures SaidInv(Run(c, s, steps), id)
  {
    InitFacts(c, s);
    assert SaidInv(s, id);
    RunKeepsSaid(c, s, steps, id);
  }

  // ----- Two DELETEs -----

  lemma CountStep(stream: seq<Event>, id: string)
    requires stream != []
    ensures var e := stream[|stream| - 1];
            CountS(Word(stream, id)) == CountS(Word(stream[..|stream| - 1], id)) + if e.Surrendered? && e.id == id then 1 else 0
  {
    var k := |stream| - 1;
    var w := Word(stream[..k], id);
    if IsLeaseEvent(stream[k]) && stream[k].id == id {
      CountMore(w, LetterOf(stream[k]));
    } else {
      assert w + [] == w;
    }
  }

  lemma {:induction false} SaidCounts(stream: seq<Event>, m: int, id: string)
    requires 0 <= m < |stream| && stream[m].Surrendered? && stream[m].id == id
    ensures CountS(Word(stream, id)) >= 1
  {
    CountStep(stream, id);
    if m < |stream| - 1 {
      SaidCounts(stream[..|stream| - 1], m, id);
    }
  }

  lemma {:induction false} SaidTwice(stream: seq<Event>, m: int, n: int, id: string)
    requires 0 <= m < n < |stream| && stream[m].Surrendered? && stream[m].id == id && stream[n].Surrendered? && stream[n].id == id
    ensures CountS(Word(stream, id)) >= 2
  {
    CountStep(stream, id);
    if n < |stream| - 1 {
      SaidTwice(stream[..|stream| - 1], m, n, id);
    } else {
      SaidCounts(stream[..|stream| - 1], m, id);
    }
  }

  /** A DELETE that has not spoken speaks; one about to mark has spoken already. */
  lemma Surrenders(c: Config, s: State, a: Rid, b: Rid, id: string) returns (s': State)
    requires a in s.inflight && Surrendering(s.inflight[a], id) && (Marking(s.inflight[a], id) ==> SaidBy(s.w.stream, a, id))
    ensures Continues(c, s, s', a, b) && CountS(Word(s'.w.stream, id)) >= 1
    ensures if Marking(s.inflight[a], id) then s' == s else Word(s'.w.stream, id) == Word(s.w.stream, id) + [S]
    ensures forall r | r != a && r in s.inflight :: r in s'.inflight && s'.inflight[r] == s.inflight[r]
  {
    if Marking(s.inflight[a], id) {
      StaysThere(c, s, a, b);
      s' := s;
      var n :| 0 <= n < |s.w.stream| && Says(s.w.stream[n], a, id);
      SaidCounts(s.w.stream, n, id);
    } else {
      s' := Speak(c, s, a, b, id);
      CountMore(Word(s.w.stream, id), S);
    }
  }

  lemma BothSurrender(c: Config, s: State, a: Rid, b: Rid, id: string) returns (s': State)
    requires a != b && a in s.inflight && b in s.inflight
    requires Surrendering(s.inflight[a], id) && (Marking(s.inflight[a], id) ==> SaidBy(s.w.stream, a, id))
    requires Surrendering(s.inflight[b], id) && !Marking(s.inflight[b], id)
    ensures Continues(c, s, s', a, b) && CountS(Word(s'.w.stream, id)) >= 2
  {
    var s1 := Surrenders(c, s, a, b, id);
    assert s1.inflight[b] == s.inflight[b] && Voice(s.inflight[b]) == S;
    s' := Speak(c, s1, b, a, id);
    CountMore(Word(s1.w.stream, id), S);
    Swapped(c, s1, s', b, a);
    ContinuesFurther(c, s, s1, s', a, b);
  }

  /** Two DELETEs of one lease between Get and mark, in any reachable state, can write two
      lease.surrendered events without anybody else taking a step. */
  lemma TwoDeletesBreak(c: Config, s: State, steps: seq<Step>, a: Rid, b: Rid, id: string) returns (s': State)
    requires Init(c, s) && IsRun(c, s, steps)
    requires var r := Run(c, s, steps);
             a != b && a in r.inflight && b in r.inflight && Surrendering(r.inflight[a], id) && Surrendering(r.inflight[b], id)
    ensures Continues(c, Run(c, s, steps), s', a, b) && CountS(Word(s'.w.stream, id)) >= 2
  {
    var r := Run(c, s, steps);
    ReachableSaid(c, s, steps, id);
    if !Marking(r.inflight[b], id) {
      s' := BothSurrender(c, r, a, b, id);
    } else if !Marking(r.inflight[a], id) {
      s' := BothSurrender(c, r, b, a, id);
      Swapped(c, r, s', b, a);
    } else {
      s' := r;
      StaysThere(c, r, a, b);
      MarkedTwice(r.w.stream, a, b, id);
    }
  }

  lemma MarkedTwice(stream: seq<Event>, a: Rid, b: Rid, id: string)
    requires a != b && SaidBy(stream, a, id) && SaidBy(stream, b, id)
    ensures CountS(Word(stream, id)) >= 2
  {
    var m :| 0 <= m < |stream| && Says(stream[m], a, id);
    var n :| 0 <= n < |stream| && Says(stream[n], b, id);
    if m < n {
      SaidTwice(stream, m, n, id);
    } else {
      SaidTwice(stream, n, m, id);
    }
  }

  // ----- Every conflicting pair -----

  /** One of the two is creating: the other speaks, or has spoken, before the lease is issued. */
  lemma CreateConflict(c: Config, s: State, a: Rid, b: Rid, id: string) returns (s': State)
    requires SaidInv(s, id) && a != b && a in s.inflight && b in s.inflight
    requires Creating(s.inflight[a], id) && Engaged(s.inflight[b], id)
    ensures Continues(c, s, s', a, b) && !IsLifecycle(Word(s'.w.stream, id))
  {
    assert SomeCreating(s, id) && !Creating(s.inflight[b], id);
    if CanSpeak(s.inflight[b], id) {
      s' := Speak(c, s, b, a, id);
      Swapped(c, s, s', b, a);
    } else {
      s' := Surrenders(c, s, b, a, id);
      Swapped(c, s, s', b, a);
      CountIn(Word(s'.w.stream, id));
    }
    NoLifeWithoutIssue(Word(s'.w.stream, id));
  }

  /** A DELETE beside a renewal or a sweep: it speaks first. */
  lemma DeleteConflict(c: Config, s: State, a: Rid, b: Rid, id: string) returns (s': State)
    requires SaidInv(s, id) && a != b && a in s.inflight && b in s.inflight
    requires Surrendering(s.inflight[a], id) && (Renewing(s.inflight[b], id) || Sweeping(s.inflight[b], id))
    ensures Continues(c, s, s', a, b) && !IsLifecycle(Word(s'.w.stream, id))
  {
    var s1 := Surrenders(c, s, a, b, id);
    s' := Speak(c, s1, b, a, id);
    Swapped(c, s1, s', b, a);
    ContinuesFurther(c, s, s1, s', a, b);
    var w := Word(s1.w.stream, id);
    CountIn(w);
    if IsLifecycle(w + [Voice(s.inflight[b])]) {
      LastLetter(w, Voice(s.inflight[b]));
    }
  }

  /** A sweep beside a renewal or another sweep: it speaks first. */
  lemma SweepConflict(c: Config, s: State, a: Rid, b: Rid, id: string) returns (s': State)
    requires a != b && a in s.inflight && b in s.inflight
    requires Sweeping(s.inflight[a], id) && (Renewing(s.inflight[b], id) || Sweeping(s.inflight[b], id))
    ensures Continues(c, s, s', a, b) && !IsLifecycle(Word(s'.w.stream, id))
  {
    var s1 := Speak(c, s, a, b, id);
    s' := Speak(c, s1, b, a, id);
    Swapped(c, s1, s', b, a);
    ContinuesFurther(c, s, s1, s', a, b);
    var w := Word(s1.w.stream, id);
    assert w[|w| - 1] == E;
    if IsLifecycle(w + [Voice(s.inflight[b])]) {
      LastLetter(w, Voice(s.inflight[b]));
    }
  }

  /** The pair in the order in which the three lemmas above take it. */
  lemma PairBreaks(c: Config, s: State, a: Rid, b: Rid, id: string) returns (s': State)
    requires SaidInv(s, id) && a != b && a in s.inflight && b in s.inflight
    requires Conflict(s.inflight[a], s.inflight[b], id)
    requires || Creating(s.inflight[a], id)
             || (Surrendering(s.inflight[a], id) && !Creating(s.inflight[b], id) && !Surrendering(s.inflight[b], id))
             || (Sweeping(s.inflight[a], id) && (Renewing(s.inflight[b], id) || Sweeping(s.inflight[b], id)))
    ensures Continues(c, s, s', a, b) && !IsLifecycle(Word(s'.w.stream, id))
  {
    if Creating(s.inflight[a], id) {
      s' := CreateConflict(c, s, a, b, id);
    } else if Surrendering(s.inflight[a], id) {
      s' := DeleteConflict(c, s, a, b, id);
    } else {
      s' := SweepConflict(c, s, a, b, id);
    }
  }

  /** Wherever two requests conflict on a lease in a reachable state, the two alone can go on to
      events that are no life of it: the conflicts are exactly what EventsTellALife must exclude. */
  lemma ConflictBreaks(c: Config, s: State, steps: seq<Step>, a: Rid, b: Rid, id: string) returns (s': State)
    requires Init(c, s) && IsRun(c, s, steps)
    requires var r := Run(c, s, steps); a != b && a in r.inflight && b in r.inflight && Conflict(r.inflight[a], r.inflight[b], id)
    ensures Continues(c, Run(c, s, steps), s', a, b) && !IsLifecycle(Word(s'.w.stream, id))
  {
    var r := Run(c, s, steps);
    ReachableSaid(c, s, steps, id);
    var q, p := r.inflight[a], r.inflight[b];
    if Surrendering(q, id) && Surrendering(p, id) {
      s' := TwoDeletesBreak(c, s, steps, a, b, id);
      LifeHasOneS(Word(s'.w.stream, id));
    } else if Creating(q, id) || (Surrendering(q, id) && !Creating(p, id)) || (Sweeping(q, id) && !Creating(p, id) && !Surrendering(p, id)) {
      s' := PairBreaks(c, r, a, b, id);
    } else {
      s' := PairBreaks(c, r, b, a, id);
      Swapped(c, r, s', b, a);
    }
  }
}
