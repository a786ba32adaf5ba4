/** The offline verifier over whole streams (cmd/acb-verify/main.go), and what it reports about a
    stream that an emitter wrote. */
module Verifier {
  import opened Base
  import opened Json
  import opened Audit
  import opened SeqAnalysis
  import opened Sorting

  // ----- The scan -----

  function SeenIn(line: Line, check: (Json, string) -> bool): Option<Seen> {
    if line.Whole? then Verify(line.json, check) else None
  }

  /** The verified sequence numbers of one instance, in order of arrival. */
  function Collected(lines: seq<Line>, check: (Json, string) -> bool, instance: string): seq<int> {
    if lines == [] then []
    else
      var n := |lines| - 1;
      var seen := SeenIn(lines[n], check);
      Collected(lines[..n], check, instance) + if seen.Some? && seen.value.instance == instance then [seen.value.seqNo] else []
  }

  function NonBlank(lines: seq<Line>): nat {
    if lines == [] then 0 else NonBlank(lines[..|lines| - 1]) + if lines[|lines| - 1].Blank? then 0 else 1
  }

  function Verified(lines: seq<Line>, check: (Json, string) -> bool): nat {
    if lines == [] then 0
    else Verified(lines[..|lines| - 1], check) + if SeenIn(lines[|lines| - 1], check).Some? then 1 else 0
  }

  ghost predicate Grouped(seqs: map<string, seq<int>>, lines: seq<Line>, check: (Json, string) -> bool) {
    && (forall i | i in seqs :: seqs[i] == Collected(lines, check, i) && seqs[i] != [])
    && (forall i | i !in seqs :: Collected(lines, check, i) == [])
  }

  lemma VerifiedIsUint64(line: Json, check: (Json, string) -> bool)
    ensures Verify(line, check).Some? ==> IsUint64(Verify(line, check).value.seqNo)
  {
  }

  lemma {:induction false} CollectedUint64(lines: seq<Line>, check: (Json, string) -> bool, instance: string)
    ensures forall x | x in Collected(lines, check, instance) :: IsUint64(x)
  {
    if lines != [] {
      var n := |lines| - 1;
      CollectedUint64(lines[..n], check, instance);
      if lines[n].Whole? {
        VerifiedIsUint64(lines[n].json, check);
      }
    }
  }

  function Others(lines: seq<Line>, k: nat): seq<Line>
    requires k < |lines|
  {
    lines[..k] + lines[k + 1..]
  }

  /** Leaving out one line and leaving out the last commute. */
  lemma OthersShrink(lines: seq<Line>, k: nat)
    requires k < |lines|
    ensures var n, o := |lines| - 1, Others(lines, k);
            if k == n then o == lines[..n]
            else |o| == n && o[..n - 1] == Others(lines[..n], k) && o[n - 1] == lines[n] && lines[..n][k] == lines[k]
  {
  }

  lemma {:induction false} RefusedNotVerified(lines: seq<Line>, k: nat, check: (Json, string) -> bool)
    requires k < |lines| && SeenIn(lines[k], check) == None
    ensures Verified(lines, check) == Verified(Others(lines, k), check)
    decreases |lines|
  {
    OthersShrink(lines, k);
    if k < |lines| - 1 {
      RefusedNotVerified(lines[..|lines| - 1], k, check);
    }
  }

  lemma {:induction false} RefusedNotCollected(lines: seq<Line>, k: nat, check: (Json, string) -> bool, instance: string)
    requires k < |lines| && SeenIn(lines[k], check) == None
    ensures Collected(lines, check, instance) == Collected(Others(lines, k), check, instance)
    decreases |lines|
  {
    OthersShrink(lines, k);
    if k < |lines| - 1 {
      RefusedNotCollected(lines[..|lines| - 1], k, check, instance);
    }
  }

  lemma {:induction false} OtherLinesCount(lines: seq<Line>, k: nat)
    requires k < |lines|
    ensures NonBlank(lines) == NonBlank(Others(lines, k)) + if lines[k].Blank? then 0 else 1
    decreases |lines|
  {
    OthersShrink(lines, k);
    if k < |lines| - 1 {
      OtherLinesCount(lines[..|lines| - 1], k);
    }
  }

  /** A line that does not verify is counted as read and nowhere else: leaving it out changes neither
      the verified total nor what is filed under any instance. */
  lemma RefusedAddsNothing(lines: seq<Line>, k: nat, check: (Json, string) -> bool, instance: string)
    requires k < |lines| && SeenIn(lines[k], check) == None
    ensures Verified(lines, check) == Verified(Others(lines, k), check)
    ensures Collected(lines, check, instance) == Collected(Others(lines, k), check, instance)
    ensures NonBlank(lines) == NonBlank(Others(lines, k)) + if lines[k].Blank? then 0 else 1
  {
    RefusedNotVerified(lines, k, check);
    RefusedNotCollected(lines, k, check, instance);
    OtherLinesCount(lines, k);
  }

  /** A tampered line is not counted valid and not filed under any instance. */
  lemma TamperedIsNotCounted(lines: seq<Line>, k: nat, f: seq<Field>, rest: seq<Field>, check: (Json, string) -> bool, instance: string)
    requires k < |lines| && lines[k] == Whole(Obj(f)) && WellFormed(Obj(f)) && AllButSig(f, rest) && forall sig :: !check(Canon(Obj(rest)), sig)
    ensures var others := Others(lines, k);
            && Verified(lines, check) == Verified(others, check) && Collected(lines, check, instance) == Collected(others, check, instance)
            && NonBlank(lines) == NonBlank(others) + 1
  {
    TamperedIsRefused(f, rest, check);
    RefusedAddsNothing(lines, k, check, instance);
  }

  /** Reads every line once, counts it, and files its number under its instance. */
  method Scan(lines: seq<Line>, check: (Json, string) -> bool) returns (seqs: map<string, seq<int>>, total: nat, valid: nat, invalid: nat)
    ensures Grouped(seqs, lines, check)
    ensures total == NonBlank(lines) && valid == Verified(lines, check) && total == valid + invalid
  {
    seqs, total, valid, invalid := map[], 0, 0, 0;
    for k := 0 to |lines|
      invariant Grouped(seqs, lines[..k], check)
      invariant total == NonBlank(lines[..k]) && valid == Verified(lines[..k], check) && total == valid + invalid
    {
      assert lines[..k + 1][..k] == lines[..k];
      if lines[k].Blank? {
        continue;
      }
      total := total + 1;
      var seen := SeenIn(lines[k], check);
      if seen.None? {
        invalid := invalid + 1;
        continue;
      }
      valid := valid + 1;
      var instance := seen.value.instance;
      seqs := seqs[instance := (if instance in seqs then seqs[instance] else []) + [seen.value.seqNo]];
    }
    assert lines[..|lines|] == lines;
  }

  /** The findings over a list of instances, one after the other. */
  function AllFindings(instances: seq<string>, lines: seq<Line>, check: (Json, string) -> bool): seq<Finding> {
    if instances == [] then []
    else
      var n := |instances| - 1;
      AllFindings(instances[..n], lines, check) + Findings(Sort(Le(), Collected(lines, check, instances[n])))
  }

  lemma {:induction false} FindingsAdd(r: seq<Finding>, q: seq<Finding>)
    ensures Gaps(r + q) == Gaps(r) + Gaps(q) && Duplicates(r + q) == Duplicates(r) + Duplicates(q)
  {
    if q == [] {
      assert r + q == r;
    } else {
      var n := |q| - 1;
      FindingsAdd(r, q[..n]);
      OneMoreFinding(r + q[..n], q[n]);
      OneMoreFinding(q[..n], q[n]);
      assert r + q == r + q[..n] + [q[n]] && q == q[..n] + [q[n]];
    }
  }

  /** A set as a list without repeats. */
  ghost predicate Lists(instances: seq<string>, s: set<string>) {
    && (forall x :: x in instances <==> x in s)
    && (forall i, j | 0 <= i < j < |instances| :: instances[i] != instances[j])
  }

  lemma OneMoreInstance(instances: seq<string>, all: set<string>, todo: set<string>, x: string)
    requires Lists(instances, all - todo) && x in todo && todo <= all
    ensures Lists(instances + [x], all - (todo - {x}))
  {
    forall i | 0 <= i < |instances| ensures instances[i] != x {
      assert instances[i] in instances;
    }
  }

  /** The counters are those of these instances' findings. */
  ghost predicate Counted(instances: seq<string>, lines: seq<Line>, check: (Json, string) -> bool, gaps: nat, dups: nat) {
    var all := AllFindings(instances, lines, check);
    gaps == Gaps(all) && dups == Duplicates(all)
  }

  lemma CountInstance(instances: seq<string>, x: string, lines: seq<Line>, check: (Json, string) -> bool, gaps: nat, dups: nat)
    requires Counted(instances, lines, check, gaps, dups)
    ensures var one := Findings(Sort(Le(), Collected(lines, check, x)));
            Counted(instances + [x], lines, check, gaps + Gaps(one), dups + Duplicates(one))
  {
    assert (instances + [x])[..|instances|] == instances;
    FindingsAdd(AllFindings(instances, lines, check), Findings(Sort(Le(), Collected(lines, check, x))));
  }

  /** The loop over the instances, in whatever order the map yields them. */
  method AnalyzeAll(seqs: map<string, seq<int>>, lines: seq<Line>, check: (Json, string) -> bool)
    returns (gaps: nat, dups: nat, instances: seq<string>)
    requires forall i | i in seqs :: seqs[i] == Collected(lines, check, i)
    ensures Lists(instances, seqs.Keys) && Counted(instances, lines, check, gaps, dups)
  {
    gaps, dups, instances := 0, 0, [];
    var todo := seqs.Keys;
    while todo != {}
      invariant todo <= seqs.Keys && Lists(instances, seqs.Keys - todo)
      invariant Counted(instances, lines, check, gaps, dups)
      decreases |todo|
    {
      var instance :| instance in todo;
      CollectedUint64(lines, check, instance);
      var _, g, d := Analyze(seqs[instance]);
      CountInstance(instances, instance, lines, check, gaps, dups);
      OneMoreInstance(instances, seqs.Keys, todo, instance);
      gaps, dups, instances := gaps + g, dups + d, instances + [instance];
      todo := todo - {instance};
    }
  }

  /** The totals printed are those of all instances' findings, each instance analysed once. */
  method Summarize(lines: seq<Line>, check: (Json, string) -> bool)
    returns (total: nat, valid: nat, invalid: nat, gaps: nat, dups: nat, instances: seq<string>)
    ensures total == NonBlank(lines) && valid == Verified(lines, check) && total == valid + invalid
    ensures forall i, j | 0 <= i < j < |instances| :: instances[i] != instances[j]
    ensures forall x :: x in instances <==> Collected(lines, check, x) != []
    ensures gaps == Gaps(AllFindings(instances, lines, check))
    ensures dups == Duplicates(AllFindings(instances, lines, check))
  {
    var seqs;
    seqs, total, valid, invalid := Scan(lines, check);
    gaps, dups, instances := AnalyzeAll(seqs, lines, check);
  }

  // ----- From emitter to verifier -----

  datatype Emission = Emission(ev: Event, ts: string, fate: Fate)

  ghost function StreamAfter(id: Id, sign: Json -> string, ems: seq<Emission>): Stream {
    if ems == [] then Stream(0, [], false)
    else
      var n := |ems| - 1;
      EmitNext(StreamAfter(id, sign, ems[..n]), id, sign, ems[n].ev, ems[n].ts, ems[n].fate)
  }

  /** Line i carries number i + 1 and verifies, unless a torn write ate it. */
  ghost predicate Numbered(lines: seq<Line>, instance: string, check: (Json, string) -> bool) {
    forall i | 0 <= i < |lines| :: lines[i].Corrupt? || Carries(lines[i], instance, i + 1, check)
  }

  ghost predicate Carries(line: Line, instance: string, n: int, check: (Json, string) -> bool) {
    line.Whole? && WellFormed(line.json) && Verify(line.json, check) == Some(Seen(instance, n))
  }

  lemma WrittenLineCarries(e: Emission, id: Id, n: int, keys: Keys)
    requires EventOk(e.ev) && Lawful(keys) && 0 <= n < TWO_64
    ensures Carries(Whole(SignedLine(Envelope(e.ev, e.ts, id.instance, id.kid, n), keys.sign)), id.instance, n, keys.check)
  {
    EnvelopeOk(e.ev, e.ts, id.instance, id.kid, n);
    SignedLineVerifies(Envelope(e.ev, e.ts, id.instance, id.kid, n), id.instance, id.kid, n, keys);
  }

  lemma NumberedStep(s: Stream, id: Id, keys: Keys, e: Emission)
    requires EventOk(e.ev) && Lawful(keys) && s.seqNo == |s.lines| < TWO_64 - 1 && Numbered(s.lines, id.instance, keys.check)
    ensures var s' := EmitNext(s, id, keys.sign, e.ev, e.ts, e.fate);
            s'.seqNo == |s'.lines| <= |s.lines| + 1 && Numbered(s'.lines, id.instance, keys.check)
  {
    WrittenLineCarries(e, id, s.seqNo + 1, keys);
  }

  lemma {:induction false} StreamNumbered(id: Id, keys: Keys, ems: seq<Emission>)
    requires Lawful(keys) && |ems| < TWO_64 && forall i | 0 <= i < |ems| :: EventOk(ems[i].ev)
    ensures var s := StreamAfter(id, keys.sign, ems);
            s.seqNo == |s.lines| <= |ems| && Numbered(s.lines, id.instance, keys.check)
  {
    if ems != [] {
      var n := |ems| - 1;
      StreamNumbered(id, keys, ems[..n]);
      NumberedStep(StreamAfter(id, keys.sign, ems[..n]), id, keys, ems[n]);
    }
  }

  /** shipped holds some of the lines, each at most once, in any order and with the properties of
      their objects in any order: line k of it is line from[k] of the stream. */
  ghost predicate Delivers(lines: seq<Line>, shipped: seq<Line>, from: seq<nat>) {
    && |from| == |shipped|
    && (forall k | 0 <= k < |from| :: from[k] < |lines| && SameLine(lines[from[k]], shipped[k]))
    && (forall k, l | 0 <= k < l < |from| :: from[k] != from[l])
  }

  ghost predicate SameLine(line: Line, shipped: Line) {
    match line
    case Whole(j) => shipped.Whole? && WellFormed(shipped.json) && Reordered(j, shipped.json)
    case _ => shipped == line
  }

  /** The event numbered d reached the verifier. */
  ghost predicate Survives(lines: seq<Line>, from: seq<nat>, d: int) {
    1 <= d <= |lines| && lines[d - 1].Whole? && exists k :: 0 <= k < |from| && from[k] == d - 1
  }

  ghost function Survivors(lines: seq<Line>, from: seq<nat>): set<int> {
    set d | 1 <= d <= |lines| && Survives(lines, from, d)
  }

  /** The same numbers in order of delivery. */
  ghost function Numbers(lines: seq<Line>, from: seq<nat>): seq<int>
    requires forall k | 0 <= k < |from| :: from[k] < |lines|
  {
    if from == [] then []
    else
      var n := |from| - 1;
      Numbers(lines, from[..n]) + if lines[from[n]].Whole? then [from[n] + 1] else []
  }

  lemma {:induction false} NumbersAreSurvivors(lines: seq<Line>, from: seq<nat>)
    requires forall k | 0 <= k < |from| :: from[k] < |lines|
    requires forall k, l | 0 <= k < l < |from| :: from[k] != from[l]
    ensures var l := Numbers(lines, from); Elements(l) == Survivors(lines, from) && |l| == |Elements(l)|
  {
    if from == [] {
      assert Survivors(lines, from) == {};
    } else {
      var n := |from| - 1;
      NumbersAreSurvivors(lines, from[..n]);
      OneMoreSurvivor(lines, from);
      OneMoreElement(Numbers(lines, from[..n]), from[n] + 1);
    }
  }

  lemma OneMoreElement(l: seq<int>, x: int)
    ensures Elements(l + [x]) == Elements(l) + {x}
  {
  }

  lemma OneMoreSurvivor(lines: seq<Line>, from: seq<nat>)
    requires from != [] && forall k | 0 <= k < |from| :: from[k] < |lines|
    requires forall k, l | 0 <= k < l < |from| :: from[k] != from[l]
    ensures var n := |from| - 1; var before := Survivors(lines, from[..n]);
            && from[n] + 1 !in before
            && Survivors(lines, from) == if lines[from[n]].Whole? then before + {from[n] + 1} else before
  {
    var n := |from| - 1;
    forall d ensures Survives(lines, from, d) <==> Survives(lines, from[..n], d) || (d == from[n] + 1 && lines[from[n]].Whole?) {
      if k :| 0 <= k < n && from[k] == d - 1 {
        assert from[..n][k] == d - 1;
      }
    }
  }

  lemma ShippedLine(line: Line, shipped: Line, instance: string, n: int, check: (Json, string) -> bool)
    requires SameLine(line, shipped) && (line.Corrupt? || Carries(line, instance, n, check))
    ensures SeenIn(shipped, check) == if line.Whole? then Some(Seen(instance, n)) else None
  {
    if line.Whole? {
      VerifyIgnoresOrder(line.json, shipped.json, check);
    }
  }

  /** What the verifier sees of each line delivered. */
  ghost predicate SeenAs(lines: seq<Line>, shipped: seq<Line>, from: seq<nat>, instance: string, check: (Json, string) -> bool) {
    && |from| == |shipped|
    && forall k | 0 <= k < |from| ::
         from[k] < |lines| && SeenIn(shipped[k], check) == if lines[from[k]].Whole? then Some(Seen(instance, from[k] + 1)) else None
  }

  lemma DeliveredIsSeen(lines: seq<Line>, shipped: seq<Line>, from: seq<nat>, instance: string, check: (Json, string) -> bool)
    requires Numbered(lines, instance, check) && Delivers(lines, shipped, from)
    ensures SeenAs(lines, shipped, from, instance, check)
  {
    forall k | 0 <= k < |from|
      ensures SeenIn(shipped[k], check) == if lines[from[k]].Whole? then Some(Seen(instance, from[k] + 1)) else None
    {
      ShippedLine(lines[from[k]], shipped[k], instance, from[k] + 1, check);
    }
  }

  lemma {:induction false} CollectedAreNumbers(lines: seq<Line>, shipped: seq<Line>, from: seq<nat>, instance: string, check: (Json, string) -> bool)
    requires SeenAs(lines, shipped, from, instance, check)
    ensures Collected(shipped, check, instance) == Numbers(lines, from)
    decreases |shipped|
  {
    if shipped != [] {
      var n := |shipped| - 1;
      assert SeenAs(lines, shipped[..n], from[..n], instance, check);
      CollectedAreNumbers(lines, shipped[..n], from[..n], instance, check);
    }
  }

  // ----- What is missing, and why -----

  /** The event numbered d is in the delivery, whole or not. */
  ghost predicate Delivered(from: seq<nat>, d: int) {
    exists k :: 0 <= k < |from| && from[k] == d - 1
  }

  /** Committed events strictly between lo and hi that were not delivered. */
  ghost function Deleted(from: seq<nat>, lo: int, hi: int): set<int> {
    set d | lo < d < hi && !Delivered(from, d)
  }

  /** Committed events strictly between lo and hi that were delivered, but behind a torn write, so
      that no line of their own arrived. */
  ghost function Eaten(lines: seq<Line>, from: seq<nat>, lo: int, hi: int): set<int> {
    set d | lo < d < hi && 1 <= d <= |lines| && Delivered(from, d) && lines[d - 1].Corrupt?
  }

  lemma MissingSplits(lines: seq<Line>, from: seq<nat>, lo: int, hi: int)
    requires 1 <= lo && hi <= |lines| && forall i | 0 <= i < |lines| :: !lines[i].Blank?
    ensures Absent(Survivors(lines, from), lo, hi) == Deleted(from, lo, hi) + Eaten(lines, from, lo, hi)
    ensures |Absent(Survivors(lines, from), lo, hi)| == |Deleted(from, lo, hi)| + |Eaten(lines, from, lo, hi)|
  {
    forall d | lo < d < hi ensures d !in Survivors(lines, from) <==> !Delivered(from, d) || lines[d - 1].Corrupt? {
    }
    assert Deleted(from, lo, hi) !! Eaten(lines, from, lo, hi);
  }

  lemma {:induction false} LinesAreFull(id: Id, sign: Json -> string, ems: seq<Emission>)
    ensures forall l | l in StreamAfter(id, sign, ems).lines :: !l.Blank?
  {
    if ems != [] {
      LinesAreFull(id, sign, ems[..|ems| - 1]);
    }
  }

  /** For any run of Emit with any failures, any deletion and any reordering: the verifier reports
      no duplicate; its missing total is the number of committed events deleted strictly between
      the smallest and the largest survivor, plus those delivered there behind a torn write; its
      gaps are the maximal runs of them. */
  lemma EmitterToVerifier(id: Id, keys: Keys, ems: seq<Emission>, shipped: seq<Line>, from: seq<nat>, lo: int, hi: int)
    requires Lawful(keys) && |ems| < TWO_64 && forall i | 0 <= i < |ems| :: EventOk(ems[i].ev)
    requires Delivers(StreamAfter(id, keys.sign, ems).lines, shipped, from)
    requires var l := Collected(shipped, keys.check, id.instance); IsLeast(lo, l) && IsGreatest(hi, l)
    ensures var s := StreamAfter(id, keys.sign, ems);
            var alive := Survivors(s.lines, from);
            var r := Findings(Sort(Le(), Collected(shipped, keys.check, id.instance)));
            && Duplicates(r) == 0
            && Missing(r) == |Deleted(from, lo, hi)| + |Eaten(s.lines, from, lo, hi)|
            && Gaps(r) == |RunStarts(alive, lo, hi)|
            && Absent(alive, lo, hi) == Deleted(from, lo, hi) + Eaten(s.lines, from, lo, hi)
            && lo in alive && hi in alive && 1 <= lo && hi <= s.seqNo && forall x | x in alive :: lo <= x <= hi
  {
    var s := StreamAfter(id, keys.sign, ems);
    StreamNumbered(id, keys, ems);
    NumberedReport(s.lines, shipped, from, id.instance, keys.check, lo, hi);
    LinesAreFull(id, keys.sign, ems);
    MissingSplits(s.lines, from, lo, hi);
  }

  /** The report over any delivery of numbered lines. */
  lemma NumberedReport(lines: seq<Line>, shipped: seq<Line>, from: seq<nat>, instance: string, check: (Json, string) -> bool, lo: int, hi: int)
    requires Numbered(lines, instance, check) && Delivers(lines, shipped, from)
    requires var l := Collected(shipped, check, instance); IsLeast(lo, l) && IsGreatest(hi, l)
    ensures var alive := Survivors(lines, from);
            var r := Findings(Sort(Le(), Collected(shipped, check, instance)));
            && Duplicates(r) == 0 && Missing(r) == |Absent(alive, lo, hi)| && Gaps(r) == |RunStarts(alive, lo, hi)|
            && lo in alive && hi in alive && 1 <= lo && hi <= |lines| && forall x | x in alive :: lo <= x <= hi
  {
    var l := Collected(shipped, check, instance);
    DeliveredIsSeen(lines, shipped, from, instance, check);
    CollectedAreNumbers(lines, shipped, from, instance, check);
    NumbersAreSurvivors(lines, from);
    CollectedUint64(shipped, check, instance);
    ReportIsExact(l, lo, hi);
    assert lo in Elements(l) && hi in Elements(l) && forall x | x in Elements(l) :: x in l;
  }

  // ----- When missing means deleted -----

  /** The write of ems[i] failed half way, and nothing was written successfully since, before j. */
  ghost predicate TornSince(ems: seq<Emission>, i: int, j: int) {
    0 <= i < j <= |ems| && ems[i].fate == WriteFailed(true) && forall k | i < k < j :: ems[k].fate != Written
  }

  ghost predicate Torn(ems: seq<Emission>, j: int) {
    exists i :: TornSince(ems, i, j)
  }

  /** A successful Emit whose line runs together with a torn one. */
  ghost predicate IsEaten(ems: seq<Emission>, j: int) {
    0 <= j < |ems| && ems[j].fate == Written && Torn(ems, j)
  }

  ghost predicate IsIntact(ems: seq<Emission>, j: int) {
    0 <= j < |ems| && ems[j].fate == Written && !Torn(ems, j)
  }

  /** Some successful Emit follows a torn failure with no success in between, and intact ones stand
      before and after it. */
  ghost predicate Straddled(ems: seq<Emission>) {
    exists i, j, k :: i < j < k && IsIntact(ems, i) && IsEaten(ems, j) && IsIntact(ems, k)
  }

  /** In every delivery of this run from which something survives, exactly the deleted events
      between the ends are reported missing. */
  ghost predicate MissingMeansDeleted(id: Id, keys: Keys, ems: seq<Emission>) {
    forall shipped, from, lo, hi | ReportsBetween(id, keys, ems, shipped, from, lo, hi) ::
      Missing(Findings(Sort(Le(), Collected(shipped, keys.check, id.instance)))) == |Deleted(from, lo, hi)|
  }

  ghost predicate ReportsBetween(id: Id, keys: Keys, ems: seq<Emission>, shipped: seq<Line>, from: seq<nat>, lo: int, hi: int) {
    && Delivers(StreamAfter(id, keys.sign, ems).lines, shipped, from)
    && var l := Collected(shipped, keys.check, id.instance); IsLeast(lo, l) && IsGreatest(hi, l)
  }

  /** The stream is torn exactly after a torn failure with no success since. */
  lemma {:induction false} TornStream(id: Id, sign: Json -> string, ems: seq<Emission>)
    ensures StreamAfter(id, sign, ems).torn <==> Torn(ems, |ems|)
  {
    if ems != [] {
      var n := |ems| - 1;
      var before := ems[..n];
      TornStream(id, sign, before);
      if i :| TornSince(before, i, n) {
        assert ems[n].fate != Written ==> TornSince(ems, i, n + 1);
      }
      if i :| TornSince(ems, i, |ems|) {
        assert i < n ==> TornSince(before, i, n);
      }
      if ems[n].fate == WriteFailed(true) {
        assert TornSince(ems, n, n + 1);
      }
    }
  }

  lemma TornBefore(ems: seq<Emission>, j: nat)
    requires j <= |ems|
    ensures Torn(ems, j) <==> Torn(ems[..j], j)
  {
    if i :| TornSince(ems, i, j) {
      assert TornSince(ems[..j], i, j);
    }
    if i :| TornSince(ems[..j], i, j) {
      assert TornSince(ems, i, j);
    }
  }

  /** How many Emits of the run have succeeded: the index in the stream of the next line. */
  function Successes(ems: seq<Emission>): nat {
    if ems == [] then 0 else Successes(ems[..|ems| - 1]) + if ems[|ems| - 1].fate == Written then 1 else 0
  }

  lemma {:induction false} SuccessesAreLines(id: Id, sign: Json -> string, ems: seq<Emission>)
    ensures |StreamAfter(id, sign, ems).lines| == Successes(ems)
  {
    if ems != [] {
      SuccessesAreLines(id, sign, ems[..|ems| - 1]);
    }
  }

  lemma {:induction false} LaterSuccesses(ems: seq<Emission>, i: nat, j: nat)
    requires i <= j <= |ems|
    ensures Successes(ems[..i]) <= Successes(ems[..j])
    ensures i < j && ems[i].fate == Written ==> Successes(ems[..i]) < Successes(ems[..j])
    decreases j - i
  {
    if i < j {
      LaterSuccesses(ems, i + 1, j);
      assert ems[..i + 1][..i] == ems[..i];
    }
  }

  /** The line a successful Emit left: corrupt exactly if it was eaten. */
  lemma {:induction false} LineOf(id: Id, sign: Json -> string, ems: seq<Emission>, j: nat)
    requires j < |ems| && ems[j].fate == Written
    ensures var n := Successes(ems[..j]); var lines := StreamAfter(id, sign, ems).lines;
            n < |lines| && (lines[n].Corrupt? <==> IsEaten(ems, j))
    decreases |ems|
  {
    var k := |ems| - 1;
    SuccessesAreLines(id, sign, ems[..k]);
    if j == k {
      TornStream(id, sign, ems[..k]);
      TornBefore(ems, k);
    } else {
      LineOf(id, sign, ems[..k], j);
      assert ems[..k][..j] == ems[..j];
      TornBefore(ems, j);
      TornBefore(ems[..k], j);
    }
  }

  /** ... and every line was left by one. */
  lemma {:induction false} LineFrom(id: Id, sign: Json -> string, ems: seq<Emission>, n: nat) returns (j: nat)
    requires n < |StreamAfter(id, sign, ems).lines|
    ensures j < |ems| && ems[j].fate == Written && Successes(ems[..j]) == n
    decreases |ems|
  {
    var k := |ems| - 1;
    SuccessesAreLines(id, sign, ems[..k]);
    if n < Successes(ems[..k]) {
      j := LineFrom(id, sign, ems[..k], n);
      assert ems[..k][..j] == ems[..j];
    } else {
      j := k;
    }
  }

  lemma EarlierLine(ems: seq<Emission>, i: nat, j: nat)
    requires i < |ems| && j < |ems| && ems[i].fate == Written && ems[j].fate == Written && Successes(ems[..i]) < Successes(ems[..j])
    ensures i < j
  {
    if j <= i {
      LaterSuccesses(ems, j, i);
    }
  }

  lemma EventOfLine(id: Id, sign: Json -> string, ems: seq<Emission>, n: nat) returns (j: nat)
    requires n < |StreamAfter(id, sign, ems).lines|
    ensures j < |ems| && ems[j].fate == Written && Successes(ems[..j]) == n
    ensures if StreamAfter(id, sign, ems).lines[n].Corrupt? then IsEaten(ems, j) else IsIntact(ems, j)
  {
    j := LineFrom(id, sign, ems, n);
    LineOf(id, sign, ems, j);
  }

  /** An eaten event between two survivors comes from a straddled one. */
  lemma EatenIsStraddled(id: Id, sign: Json -> string, ems: seq<Emission>, lo: int, d: int, hi: int)
    requires var lines := StreamAfter(id, sign, ems).lines;
             1 <= lo < d < hi <= |lines| && lines[lo - 1].Whole? && lines[d - 1].Corrupt? && lines[hi - 1].Whole?
    ensures Straddled(ems)
  {
    var i := EventOfLine(id, sign, ems, lo - 1);
    var j := EventOfLine(id, sign, ems, d - 1);
    var k := EventOfLine(id, sign, ems, hi - 1);
    EarlierLine(ems, i, j);
    EarlierLine(ems, j, k);
    assert IsIntact(ems, i) && IsEaten(ems, j) && IsIntact(ems, k);
  }

  lemma UnstraddledMeansDeleted(id: Id, keys: Keys, ems: seq<Emission>, shipped: seq<Line>, from: seq<nat>, lo: int, hi: int)
    requires Lawful(keys) && |ems| < TWO_64 && forall i | 0 <= i < |ems| :: EventOk(ems[i].ev)
    requires !Straddled(ems) && ReportsBetween(id, keys, ems, shipped, from, lo, hi)
    ensures Missing(Findings(Sort(Le(), Collected(shipped, keys.check, id.instance)))) == |Deleted(from, lo, hi)|
  {
    var lines := StreamAfter(id, keys.sign, ems).lines;
    EmitterToVerifier(id, keys, ems, shipped, from, lo, hi);
    StreamNumbered(id, keys, ems);
    if d :| d in Eaten(lines, from, lo, hi) {
      EatenIsStraddled(id, keys.sign, ems, lo, d, hi);
    }
    assert Eaten(lines, from, lo, hi) == {};
  }

  // ----- Delivering everything -----

  function Everything(n: nat): seq<nat> {
    seq(n, i => i)
  }

  lemma AllDelivered(lines: seq<Line>, instance: string, check: (Json, string) -> bool)
    requires Numbered(lines, instance, check)
    ensures Delivers(lines, lines, Everything(|lines|))
    ensures forall d | 1 <= d <= |lines| :: Delivered(Everything(|lines|), d)
  {
    var from := Everything(|lines|);
    forall k | 0 <= k < |lines| ensures SameLine(lines[from[k]], lines[k]) {
      if lines[k].Whole? {
        CanonIffReordered(lines[k].json, lines[k].json);
      }
    }
    forall d | 1 <= d <= |lines| ensures Delivered(from, d) {
      assert from[d - 1] == d - 1;
    }
  }

  lemma Ends(l: seq<int>) returns (lo: int, hi: int)
    requires l != []
    ensures IsLeast(lo, l) && IsGreatest(hi, l)
  {
    SortEnds(l);
    var s := Sort(Le(), l);
    lo, hi := s[0], s[|s| - 1];
  }

  /** In the full delivery the whole lines survive, so the report has ends. */
  lemma EndsOfAll(lines: seq<Line>, instance: string, check: (Json, string) -> bool, n: nat) returns (lo: int, hi: int)
    requires Numbered(lines, instance, check) && |lines| < TWO_64 && n < |lines| && lines[n].Whole?
    ensures var l := Collected(lines, check, instance); IsLeast(lo, l) && IsGreatest(hi, l)
  {
    var from, l := Everything(|lines|), Collected(lines, check, instance);
    AllDelivered(lines, instance, check);
    DeliveredIsSeen(lines, lines, from, instance, check);
    CollectedAreNumbers(lines, lines, from, instance, check);
    NumbersAreSurvivors(lines, from);
    assert from[n] == n;
    assert Survives(lines, from, n + 1);
    assert n + 1 in Elements(l);
    lo, hi := Ends(l);
  }

  lemma IntactLine(id: Id, sign: Json -> string, ems: seq<Emission>, j: nat)
    requires IsIntact(ems, j)
    ensures var n := Successes(ems[..j]); var lines := StreamAfter(id, sign, ems).lines; n < |lines| && lines[n].Whole?
  {
    LineOf(id, sign, ems, j);
    LinesAreFull(id, sign, ems);
    assert StreamAfter(id, sign, ems).lines[Successes(ems[..j])] in StreamAfter(id, sign, ems).lines;
  }

  /** A straddled run leaves a corrupt line between two whole ones. */
  lemma StraddledLines(id: Id, sign: Json -> string, ems: seq<Emission>) returns (a: nat, b: nat, d: nat)
    requires Straddled(ems)
    ensures var lines := StreamAfter(id, sign, ems).lines;
            a < b < d < |lines| && lines[a].Whole? && lines[b].Corrupt? && lines[d].Whole?
  {
    var i, j, k :| i < j < k && IsIntact(ems, i) && IsEaten(ems, j) && IsIntact(ems, k);
    a, b, d := Successes(ems[..i]), Successes(ems[..j]), Successes(ems[..k]);
    IntactLine(id, sign, ems, i);
    LineOf(id, sign, ems, j);
    IntactLine(id, sign, ems, k);
    LaterSuccesses(ems, i, j);
    LaterSuccesses(ems, j, k);
  }

  lemma AllBetween(lines: seq<Line>, lo: int, hi: int, a: nat, b: nat, d: nat)
    requires a < b < d < |lines| && lines[a].Whole? && lines[b].Corrupt? && lines[d].Whole?
    requires 1 <= lo && hi <= |lines| && forall x | x in Survivors(lines, Everything(|lines|)) :: lo <= x <= hi
    ensures Deleted(Everything(|lines|), lo, hi) == {} && b + 1 in Eaten(lines, Everything(|lines|), lo, hi)
  {
    var from := Everything(|lines|);
    forall x | 1 <= x <= |lines| ensures Delivered(from, x) {
      assert from[x - 1] == x - 1;
    }
    assert from[a] == a && from[d] == d;
    assert Survives(lines, from, a + 1) && Survives(lines, from, d + 1);
    assert a + 1 in Survivors(lines, from) && d + 1 in Survivors(lines, from);
  }

  /** A straddled run, delivered whole and in order, is reported as if something had been deleted. */
  lemma StraddledLooksDeleted(id: Id, keys: Keys, ems: seq<Emission>) returns (lo: int, hi: int)
    requires Lawful(keys) && |ems| < TWO_64 && forall i | 0 <= i < |ems| :: EventOk(ems[i].ev)
    requires Straddled(ems)
    ensures var lines := StreamAfter(id, keys.sign, ems).lines; var from := Everything(|lines|);
            && ReportsBetween(id, keys, ems, lines, from, lo, hi) && Deleted(from, lo, hi) == {} && 1 <= lo && hi <= |lines|
            && Missing(Findings(Sort(Le(), Collected(lines, keys.check, id.instance)))) == |Eaten(lines, from, lo, hi)| > 0
  {
    var lines := StreamAfter(id, keys.sign, ems).lines;
    var a, b, d := StraddledLines(id, keys.sign, ems);
    StreamNumbered(id, keys, ems);
    AllDelivered(lines, id.instance, keys.check);
    lo, hi := EndsOfAll(lines, id.instance, keys.check, a);
    EmitterToVerifier(id, keys, ems, lines, Everything(|lines|), lo, hi);
    AllBetween(lines, lo, hi, a, b, d);
  }

  /** What the verifier reports missing is exactly what was deleted, for every delivery of a run, if
      and only if the run is not straddled: no successful Emit follows a torn failure, with no
      success in between, among intact ones. */
  lemma MissingMeansDeletedExactly(id: Id, keys: Keys, ems: seq<Emission>)
    requires Lawful(keys) && |ems| < TWO_64 && forall i | 0 <= i < |ems| :: EventOk(ems[i].ev)
    ensures MissingMeansDeleted(id, keys, ems) <==> !Straddled(ems)
  {
    if Straddled(ems) {
      var lo, hi := StraddledLooksDeleted(id, keys, ems);
      var lines := StreamAfter(id, keys.sign, ems).lines;
      assert ReportsBetween(id, keys, ems, lines, Everything(|lines|), lo, hi);
    } else {
      forall shipped, from, lo, hi | ReportsBetween(id, keys, ems, shipped, from, lo, hi)
        ensures Missing(Findings(Sort(Le(), Collected(shipped, keys.check, id.instance)))) == |Deleted(from, lo, hi)|
      {
        UnstraddledMeansDeleted(id, keys, ems, shipped, from, lo, hi);
      }
    }
  }

  /** The shortest such run: a success, a torn failure, two successes. */
  lemma TornWriteLooksDeleted(id: Id, keys: Keys, ev: Event, ts: string)
    requires Lawful(keys) && EventOk(ev)
    ensures var w := Emission(ev, ts, Written); var ems := [w, Emission(ev, ts, WriteFailed(true)), w, w];
            var lines := StreamAfter(id, keys.sign, ems).lines;
            && Straddled(ems) && !MissingMeansDeleted(id, keys, ems) && Delivers(lines, lines, Everything(|lines|))
            && Missing(Findings(Sort(Le(), Collected(lines, keys.check, id.instance)))) == 1
  {
    var w := Emission(ev, ts, Written);
    var ems := [w, Emission(ev, ts, WriteFailed(true)), w, w];
    FourFates(ems);
    MissingMeansDeletedExactly(id, keys, ems);
    var lines := StreamAfter(id, keys.sign, ems).lines;
    var lo, hi := StraddledLooksDeleted(id, keys, ems);
    SuccessesAreLines(id, keys.sign, ems);
    RoomForOne(lines, lo, hi);
  }

  /** Between the ends of three lines there is room for one. */
  lemma RoomForOne(lines: seq<Line>, lo: int, hi: int)
    requires |lines| == 3 && 1 <= lo && hi <= 3 && |Eaten(lines, Everything(3), lo, hi)| > 0
    ensures |Eaten(lines, Everything(3), lo, hi)| == 1
  {
    var eaten := Eaten(lines, Everything(3), lo, hi);
    var d :| d in eaten;
    assert eaten == {2};
  }

  lemma FourFates(ems: seq<Emission>)
    requires |ems| == 4 && ems[0].fate == Written && ems[1].fate == WriteFailed(true) && ems[2].fate == Written && ems[3].fate == Written
    ensures Straddled(ems) && Successes(ems) == 3
  {
    assert TornSince(ems, 1, 2);
    assert IsIntact(ems, 0) && IsEaten(ems, 2) && IsIntact(ems, 3);
    assert ems[..3][..2] == ems[..2] && ems[..2][..1] == ems[..1] && ems[..1][..0] == [];
    assert Successes(ems[..1]) == 1 && Successes(ems[..2]) == 1 && Successes(ems[..3]) == 2;
  }
}
