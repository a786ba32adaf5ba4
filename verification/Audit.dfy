/** Signed act-claim events: Emitter.Emit and Verify (internal/audit/audit.go). */
module Audit {
  import opened Base
  import opened Json

  /** What a caller of Emit supplies. Empty parts are omitted from the line. */
  datatype Event = Event(
    typ: string, requestId: string,
    subject: Option<Json>, source: Option<Json>, attested: Option<Json>, asserted: Option<Json>)

  /** An Ed25519 key pair seen from outside: a text signature over a canonical form, and the check. */
  datatype Keys = Keys(sign: Json -> string, check: (Json, string) -> bool)

  ghost predicate Lawful(k: Keys) {
    forall m :: k.check(m, k.sign(m)) && k.sign(m) != ""
  }

  ghost predicate EventOk(ev: Event) {
    && (ev.subject.Some? ==> WellFormed(ev.subject.value)) && (ev.source.Some? ==> WellFormed(ev.source.value))
    && (ev.attested.Some? ==> WellFormed(ev.attested.value)) && (ev.asserted.Some? ==> WellFormed(ev.asserted.value))
  }

  // ----- The envelope -----

  const NAMES: seq<string> :=
    ["v", "kind", "type", "ts", "request_id", "broker", "subject", "source", "attested", "asserted"]

  function Broker(instance: string, kid: string, seqNo: int): Json {
    Obj([Field("instance", Str(instance)), Field("kid", Str(kid)), Field("seq", Num(seqNo))])
  }

  /** The members of the envelope in declaration order, None where omitempty drops one. */
  function Members(ev: Event, ts: string, instance: string, kid: string, seqNo: int): seq<Option<Json>> {
    [Some(Num(1)), Some(Str("act-claim")), Some(Str(ev.typ)), Some(Str(ts)),
     if ev.requestId == "" then None else Some(Str(ev.requestId)),
     Some(Broker(instance, kid, seqNo)),
     ev.subject, ev.source, ev.attested, ev.asserted]
  }

  function Present(names: seq<string>, members: seq<Option<Json>>): seq<Field>
    requires |names| == |members|
  {
    if names == [] then []
    else
      var n := |names| - 1;
      Present(names[..n], members[..n]) + if members[n].Some? then [Field(names[n], members[n].value)] else []
  }

  function Envelope(ev: Event, ts: string, instance: string, kid: string, seqNo: int): seq<Field> {
    Present(NAMES, Members(ev, ts, instance, kid, seqNo))
  }

  /** The line Emit writes: the envelope with a signature over its canonical form. */
  function SignedLine(fields: seq<Field>, sign: Json -> string): Json {
    Obj(fields + [Field("sig", Str(sign(Canon(Obj(fields)))))])
  }

  lemma NamesDistinct()
    ensures |NAMES| == 10
    ensures forall i, j | 0 <= i < j < |NAMES| :: NAMES[i] != NAMES[j]
    ensures forall i | 0 <= i < |NAMES| :: NAMES[i] != "sig"
  {
    assert |NAMES[0]| == 1 && |NAMES[1]| == 4 && |NAMES[2]| == 4 && |NAMES[3]| == 2 && |NAMES[4]| == 10;
    assert |NAMES[5]| == 6 && |NAMES[6]| == 7 && |NAMES[7]| == 6 && |NAMES[8]| == 8 && |NAMES[9]| == 8;
    assert NAMES[1][0] == 'k' && NAMES[2][0] == 't' && NAMES[5][0] == 'b' && NAMES[7][0] == 's';
    assert NAMES[8][1] == 't' && NAMES[9][1] == 's';
  }

  lemma {:induction false} PresentNames(names: seq<string>, members: seq<Option<Json>>)
    requires |names| == |members|
    ensures forall x | x in Present(names, members) :: x.key in names
  {
    if names != [] {
      PresentNames(names[..|names| - 1], members[..|names| - 1]);
    }
  }

  lemma {:induction false} PresentValues(names: seq<string>, members: seq<Option<Json>>)
    requires |names| == |members|
    requires forall i | 0 <= i < |members| && members[i].Some? :: WellFormed(members[i].value)
    ensures forall x | x in Present(names, members) :: WellFormed(x.value)
  {
    if names != [] {
      PresentValues(names[..|names| - 1], members[..|names| - 1]);
    }
  }

  lemma DistinctOneMore(f: seq<Field>, x: Field)
    requires Distinct(f) && forall y | y in f :: y.key != x.key
    ensures Distinct(f + [x])
  {
    forall i, j | 0 <= i < j < |f + [x]| ensures (f + [x])[i].key != (f + [x])[j].key {
      assert (f + [x])[i] in f;
    }
  }

  lemma {:induction false} PresentDistinct(names: seq<string>, members: seq<Option<Json>>)
    requires |names| == |members| && forall i, j | 0 <= i < j < |names| :: names[i] != names[j]
    ensures Distinct(Present(names, members))
  {
    if names != [] {
      var n := |names| - 1;
      PresentDistinct(names[..n], members[..n]);
      PresentNames(names[..n], members[..n]);
      if members[n].Some? {
        DistinctOneMore(Present(names[..n], members[..n]), Field(names[n], members[n].value));
      }
    }
  }

  /** No member of that name: a lookup finds nothing. */
  lemma {:induction false} FindNothing(f: seq<Field>, key: string)
    requires forall x | x in f :: x.key != key
    ensures Find(f, key) == None
  {
    if f != [] {
      FindNothing(f[..|f| - 1], key);
    }
  }

  lemma FindAfter(f: seq<Field>, x: Field, key: string)
    ensures Find(f + [x], key) == if x.key == key then Some(x.value) else Find(f, key)
  {
    assert (f + [x])[..|f|] == f;
  }

  lemma {:induction false} PresentFind(names: seq<string>, members: seq<Option<Json>>, i: nat)
    requires i < |names| == |members| && forall i, j | 0 <= i < j < |names| :: names[i] != names[j]
    ensures Find(Present(names, members), names[i]) == members[i]
  {
    var n := |names| - 1;
    var f := Present(names[..n], members[..n]);
    PresentNames(names[..n], members[..n]);
    if i < n {
      PresentFind(names[..n], members[..n], i);
    } else {
      FindNothing(f, names[n]);
    }
    if members[n].Some? {
      FindAfter(f, Field(names[n], members[n].value), names[i]);
    } else {
      assert f + [] == f;
    }
  }

  lemma BrokerOk(instance: string, kid: string, seqNo: int)
    ensures WellFormed(Broker(instance, kid, seqNo))
  {
    var f := Broker(instance, kid, seqNo).fields;
    assert |f[0].key| == 8 && |f[1].key| == 3 && |f[2].key| == 3 && f[1].key[0] == 'k' && f[2].key[0] == 's';
  }

  // ----- What a line says -----

  /** What the broker vouches for stands under attested, what the caller claims under asserted; parts
      the event lacks are left out. */
  ghost predicate SaysEvent(f: seq<Field>, ev: Event, ts: string) {
    && Find(f, "v") == Some(Num(1)) && Find(f, "kind") == Some(Str("act-claim"))
    && Find(f, "type") == Some(Str(ev.typ)) && Find(f, "ts") == Some(Str(ts))
    && Find(f, "request_id") == (if ev.requestId == "" then None else Some(Str(ev.requestId)))
    && Find(f, "subject") == ev.subject && Find(f, "source") == ev.source
    && Find(f, "attested") == ev.attested && Find(f, "asserted") == ev.asserted
  }

  ghost predicate SaysBroker(f: seq<Field>, instance: string, kid: string, seqNo: int) {
    && Find(f, "broker").Some? && Find(f, "broker").value.Obj?
    && var b := Find(f, "broker").value.fields;
       && Find(b, "instance") == Some(Str(instance)) && Find(b, "kid") == Some(Str(kid)) && Find(b, "seq") == Some(Num(seqNo))
       && |b| == 3 && Distinct(b)
  }

  predicate KnownKey(key: string) {
    key in {"v", "kind", "type", "ts", "request_id", "broker", "subject", "source", "attested", "asserted", "sig"}
  }

  /** The members of a signed line, one by one, each once and nothing more; the signature is over the
      canonical form of all the others. */
  ghost predicate Says(f: seq<Field>, ev: Event, ts: string, instance: string, kid: string, seqNo: int, sign: Json -> string) {
    && SaysEvent(f, ev, ts) && SaysBroker(f, instance, kid, seqNo)
    && Find(f, "sig") == Some(Str(sign(Canon(Obj(Without(f, "sig"))))))
    && Distinct(f) && KnownKeys(f)
  }

  lemma BrokerSays(f: seq<Field>, instance: string, kid: string, seqNo: int)
    requires Find(f, "broker") == Some(Broker(instance, kid, seqNo))
    ensures SaysBroker(f, instance, kid, seqNo)
  {
    BrokerOk(instance, kid, seqNo);
    var b := Broker(instance, kid, seqNo).fields;
    FindByKey(b, 0);
    FindByKey(b, 1);
    FindByKey(b, 2);
  }

  /** The envelope, before it is signed. */
  lemma EnvelopeSays(ev: Event, ts: string, instance: string, kid: string, seqNo: int)
    ensures var f := Envelope(ev, ts, instance, kid, seqNo);
            SaysEvent(f, ev, ts) && Find(f, "broker") == Some(Broker(instance, kid, seqNo)) && Distinct(f) && forall x | x in f :: x.key in NAMES
  {
    NamesDistinct();
    var m := Members(ev, ts, instance, kid, seqNo);
    PresentNames(NAMES, m);
    PresentDistinct(NAMES, m);
    forall i | 0 <= i < 10 ensures Find(Present(NAMES, m), NAMES[i]) == m[i] {
      PresentFind(NAMES, m, i);
    }
    assert NAMES[0] == "v" && NAMES[1] == "kind" && NAMES[2] == "type" && NAMES[3] == "ts" && NAMES[4] == "request_id";
    assert NAMES[5] == "broker" && NAMES[6] == "subject" && NAMES[7] == "source" && NAMES[8] == "attested" && NAMES[9] == "asserted";
    assert m[0] == Some(Num(1)) && m[5] == Some(Broker(instance, kid, seqNo)) && m[8] == ev.attested && m[9] == ev.asserted;
  }

  lemma StillSaysEvent(f: seq<Field>, ev: Event, ts: string, x: Field)
    requires SaysEvent(f, ev, ts) && x.key == "sig"
    ensures SaysEvent(f + [x], ev, ts) && Find(f + [x], "broker") == Find(f, "broker")
  {
    NamesDistinct();
    forall i | 0 <= i < 10 ensures Find(f + [x], NAMES[i]) == Find(f, NAMES[i]) {
      FindAfter(f, x, NAMES[i]);
    }
    assert NAMES[0] == "v" && NAMES[1] == "kind" && NAMES[2] == "type" && NAMES[3] == "ts" && NAMES[4] == "request_id";
    assert NAMES[5] == "broker" && NAMES[6] == "subject" && NAMES[7] == "source" && NAMES[8] == "attested" && NAMES[9] == "asserted";
  }

  lemma NamesKnown(key: string)
    requires key in NAMES
    ensures KnownKey(key) && key != "sig"
  {
    NamesDistinct();
    var i :| 0 <= i < 10 && NAMES[i] == key;
  }

  ghost predicate KnownKeys(f: seq<Field>) {
    forall x | x in f :: KnownKey(x.key)
  }

  lemma SignedKeysKnown(f: seq<Field>, x: Field)
    requires (forall y | y in f :: y.key in NAMES) && x.key == "sig"
    ensures KnownKeys(f + [x]) && forall y | y in f :: y.key != "sig"
  {
    forall y | y in f ensures KnownKey(y.key) && y.key != "sig" {
      NamesKnown(y.key);
    }
    assert KnownKey(x.key);
  }

  lemma SignatureSays(f: seq<Field>, sig: string)
    requires Distinct(f) && forall y | y in f :: y.key != "sig"
    ensures var g := f + [Field("sig", Str(sig))]; Find(g, "sig") == Some(Str(sig)) && Without(g, "sig") == f && Distinct(g)
  {
    var x := Field("sig", Str(sig));
    DistinctOneMore(f, x);
    FindAfter(f, x, "sig");
    WithoutNothing(f, "sig");
    assert (f + [x])[..|f|] == f;
  }

  /** The line Emit writes says what the event and the envelope hold. */
  lemma SignedSays(ev: Event, ts: string, instance: string, kid: string, seqNo: int, sign: Json -> string) returns (f: seq<Field>)
    ensures SignedLine(Envelope(ev, ts, instance, kid, seqNo), sign) == Obj(f) && Says(f, ev, ts, instance, kid, seqNo, sign)
  {
    var e := Envelope(ev, ts, instance, kid, seqNo);
    var x := Field("sig", Str(sign(Canon(Obj(e)))));
    f := e + [x];
    EnvelopeSays(ev, ts, instance, kid, seqNo);
    StillSaysEvent(e, ev, ts, x);
    BrokerSays(f, instance, kid, seqNo);
    SignedKeysKnown(e, x);
    SignatureSays(e, sign(Canon(Obj(e))));
  }

  lemma EnvelopeOk(ev: Event, ts: string, instance: string, kid: string, seqNo: int)
    requires EventOk(ev)
    ensures var f := Envelope(ev, ts, instance, kid, seqNo);
            && WellFormed(Obj(f)) && (forall k | 0 <= k < |f| :: f[k].key != "sig")
            && Field("broker", Broker(instance, kid, seqNo)) in f
  {
    var f := Envelope(ev, ts, instance, kid, seqNo);
    EnvelopeValues(ev, ts, instance, kid, seqNo);
    EnvelopeSays(ev, ts, instance, kid, seqNo);
    FindIsMember(f, "broker");
    forall k | 0 <= k < |f| ensures f[k].key != "sig" && WellFormed(f[k].value) {
      assert f[k] in f;
      NamesKnown(f[k].key);
    }
  }

  lemma EnvelopeValues(ev: Event, ts: string, instance: string, kid: string, seqNo: int)
    requires EventOk(ev)
    ensures forall x | x in Envelope(ev, ts, instance, kid, seqNo) :: WellFormed(x.value)
  {
    BrokerOk(instance, kid, seqNo);
    PresentValues(NAMES, Members(ev, ts, instance, kid, seqNo));
  }

  // ----- Verify -----

  /** What the verifier reads off a line. */
  datatype Seen = Seen(instance: string, seqNo: int)

  datatype Decoded = Decoded(sig: string, instance: string, seqNo: int)

  function Find(fields: seq<Field>, key: string): Option<Json> {
    if fields == [] then None
    else
      var n := |fields| - 1;
      if fields[n].key == key then Some(fields[n].value) else Find(fields[..n], key)
  }

  function Without(fields: seq<Field>, key: string): seq<Field> {
    if fields == [] then []
    else
      var n := |fields| - 1;
      Without(fields[..n], key) + if fields[n].key == key then [] else [fields[n]]
  }

  /** A missing or null member decodes to the zero value, one of the wrong type is an error. */
  function TextOr(j: Option<Json>): Option<string> {
    match j
    case None => Some("")
    case Some(Null) => Some("")
    case Some(Str(s)) => Some(s)
    case _ => None
  }

  function Uint64Or(j: Option<Json>): Option<int> {
    match j
    case None => Some(0)
    case Some(Null) => Some(0)
    case Some(Num(n)) => if 0 <= n < TWO_64 then Some(n) else None
    case _ => None
  }

  function DecodeBroker(j: Option<Json>): Option<Seen> {
    match j
    case None => Some(Seen("", 0))
    case Some(Null) => Some(Seen("", 0))
    case Some(Obj(fields)) =>
      var instance, seqNo := TextOr(Find(fields, "instance")), Uint64Or(Find(fields, "seq"));
      if instance.Some? && seqNo.Some? then Some(Seen(instance.value, seqNo.value)) else None
    case _ => None
  }

  /** Verify: decode, drop sig, canonicalise what is left, check the signature over it. */
  function Verify(line: Json, check: (Json, string) -> bool): Option<Seen> {
    if !line.Obj? then None
    else
      var sig, seen := TextOr(Find(line.fields, "sig")), DecodeBroker(Find(line.fields, "broker"));
      if sig.None? || seen.None? || sig.value == "" then None
      else if check(Canon(Obj(Without(line.fields, "sig"))), sig.value) then seen
      else None
  }

  lemma {:induction false} FindIsMember(fields: seq<Field>, key: string)
    ensures Find(fields, key).Some? ==> Field(key, Find(fields, key).value) in fields
    ensures Find(fields, key).None? ==> forall i | 0 <= i < |fields| :: fields[i].key != key
  {
    if fields != [] {
      FindIsMember(fields[..|fields| - 1], key);
    }
  }

  lemma FindByKey(fields: seq<Field>, i: nat)
    requires i < |fields| && Distinct(fields)
    ensures Find(fields, fields[i].key) == Some(fields[i].value)
  {
    FindIsMember(fields, fields[i].key);
  }

  lemma {:induction false} WithoutMembers(fields: seq<Field>, key: string)
    requires Distinct(fields)
    ensures Distinct(Without(fields, key))
    ensures forall x :: x in Without(fields, key) <==> x in fields && x.key != key
  {
    if fields != [] {
      var n := |fields| - 1;
      WithoutMembers(fields[..n], key);
      assert fields == fields[..n] + [fields[n]];
      assert fields[n] in fields;
    }
  }

  lemma WithoutWellFormed(fields: seq<Field>, key: string)
    requires WellFormed(Obj(fields))
    ensures WellFormed(Obj(Without(fields, key)))
  {
    WithoutMembers(fields, key);
    var w := Without(fields, key);
    forall i | 0 <= i < |w| ensures WellFormed(w[i].value) {
      assert w[i] in fields;
    }
  }

  // ----- Verification does not depend on property order -----

  lemma ReorderedFind(f: seq<Field>, g: seq<Field>, key: string)
    requires Distinct(f) && Distinct(g) && Reordered(Obj(f), Obj(g))
    ensures Find(f, key).None? <==> Find(g, key).None?
    ensures Find(f, key).Some? ==> Reordered(Find(f, key).value, Find(g, key).value)
  {
    FindIsMember(f, key);
    FindIsMember(g, key);
    if Find(f, key).Some? {
      var i :| 0 <= i < |f| && f[i] == Field(key, Find(f, key).value);
      assert HasTwin(f[i], g);
      var j :| 0 <= j < |g| && f[i].key == g[j].key && Reordered(f[i].value, g[j].value);
      FindByKey(g, j);
    }
    if Find(g, key).Some? {
      var j :| 0 <= j < |g| && g[j] == Field(key, Find(g, key).value);
      assert IsTwin(f, g[j]);
      var i :| 0 <= i < |f| && f[i].key == g[j].key && Reordered(f[i].value, g[j].value);
      FindByKey(f, i);
    }
  }

  lemma ReorderedText(a: Option<Json>, b: Option<Json>)
    requires a.None? <==> b.None?
    requires a.Some? ==> Reordered(a.value, b.value)
    ensures TextOr(a) == TextOr(b)
  {
  }

  lemma ReorderedNumber(a: Option<Json>, b: Option<Json>)
    requires a.None? <==> b.None?
    requires a.Some? ==> Reordered(a.value, b.value)
    ensures Uint64Or(a) == Uint64Or(b)
  {
  }

  lemma ReorderedSeen(f: seq<Field>, g: seq<Field>)
    requires Distinct(f) && Distinct(g) && Reordered(Obj(f), Obj(g))
    ensures TextOr(Find(f, "instance")) == TextOr(Find(g, "instance")) && Uint64Or(Find(f, "seq")) == Uint64Or(Find(g, "seq"))
  {
    ReorderedFind(f, g, "instance");
    ReorderedText(Find(f, "instance"), Find(g, "instance"));
    ReorderedFind(f, g, "seq");
    ReorderedNumber(Find(f, "seq"), Find(g, "seq"));
  }

  lemma ReorderedBroker(a: Option<Json>, b: Option<Json>)
    requires a.None? <==> b.None?
    requires a.Some? ==> WellFormed(a.value) && WellFormed(b.value) && Reordered(a.value, b.value)
    ensures DecodeBroker(a) == DecodeBroker(b)
  {
    if a.Some? && a.value.Obj? {
      assert a.value == Obj(a.value.fields) && b.value == Obj(b.value.fields);
      ReorderedSeen(a.value.fields, b.value.fields);
    }
  }

  lemma TwinsWithout(f: seq<Field>, g: seq<Field>, key: string)
    requires Distinct(f) && Distinct(g) && forall i | 0 <= i < |f| :: HasTwin(f[i], g)
    ensures forall i | 0 <= i < |Without(f, key)| :: HasTwin(Without(f, key)[i], Without(g, key))
  {
    var f', g' := Without(f, key), Without(g, key);
    WithoutMembers(f, key);
    WithoutMembers(g, key);
    forall i | 0 <= i < |f'| ensures HasTwin(f'[i], g') {
      assert f'[i] in f;
      var a :| 0 <= a < |f| && f[a] == f'[i];
      assert HasTwin(f[a], g);
      var b :| 0 <= b < |g| && f[a].key == g[b].key && Reordered(f[a].value, g[b].value);
      assert g[b] in g';
      var j :| 0 <= j < |g'| && g'[j] == g[b];
    }
  }

  lemma TwinnedWithout(f: seq<Field>, g: seq<Field>, key: string)
    requires Distinct(f) && Distinct(g) && forall j | 0 <= j < |g| :: IsTwin(f, g[j])
    ensures forall j | 0 <= j < |Without(g, key)| :: IsTwin(Without(f, key), Without(g, key)[j])
  {
    var f', g' := Without(f, key), Without(g, key);
    WithoutMembers(f, key);
    WithoutMembers(g, key);
    forall j | 0 <= j < |g'| ensures IsTwin(f', g'[j]) {
      assert g'[j] in g;
      var b :| 0 <= b < |g| && g[b] == g'[j];
      assert IsTwin(f, g[b]);
      var a :| 0 <= a < |f| && f[a].key == g[b].key && Reordered(f[a].value, g[b].value);
      assert f[a] in f';
      var i :| 0 <= i < |f'| && f'[i] == f[a];
    }
  }

  lemma ReorderedWithout(f: seq<Field>, g: seq<Field>, key: string)
    requires WellFormed(Obj(f)) && WellFormed(Obj(g)) && Reordered(Obj(f), Obj(g))
    ensures Reordered(Obj(Without(f, key)), Obj(Without(g, key)))
  {
    TwinsWithout(f, g, key);
    TwinnedWithout(f, g, key);
  }

  lemma SameSignedForm(f: seq<Field>, g: seq<Field>)
    requires WellFormed(Obj(f)) && WellFormed(Obj(g)) && Reordered(Obj(f), Obj(g))
    ensures Canon(Obj(Without(f, "sig"))) == Canon(Obj(Without(g, "sig")))
  {
    ReorderedWithout(f, g, "sig");
    WithoutWellFormed(f, "sig");
    WithoutWellFormed(g, "sig");
    CanonIffReordered(Obj(Without(f, "sig")), Obj(Without(g, "sig")));
  }

  lemma FoundWellFormed(f: seq<Field>, key: string)
    requires WellFormed(Obj(f))
    ensures Find(f, key).Some? ==> WellFormed(Find(f, key).value)
  {
    FindIsMember(f, key);
  }

  lemma SameDecoding(f: seq<Field>, g: seq<Field>)
    requires WellFormed(Obj(f)) && WellFormed(Obj(g)) && Reordered(Obj(f), Obj(g))
    ensures TextOr(Find(f, "sig")) == TextOr(Find(g, "sig"))
    ensures DecodeBroker(Find(f, "broker")) == DecodeBroker(Find(g, "broker"))
  {
    ReorderedFind(f, g, "sig");
    ReorderedText(Find(f, "sig"), Find(g, "sig"));
    ReorderedFind(f, g, "broker");
    FoundWellFormed(f, "broker");
    FoundWellFormed(g, "broker");
    ReorderedBroker(Find(f, "broker"), Find(g, "broker"));
  }

  /** Every line verifies, or fails to, alike under every reordering of its properties. */
  lemma VerifyIgnoresOrder(line: Json, shipped: Json, check: (Json, string) -> bool)
    requires WellFormed(line) && WellFormed(shipped) && Reordered(line, shipped)
    ensures Verify(line, check) == Verify(shipped, check)
  {
    if line.Obj? {
      assert shipped.Obj? && line == Obj(line.fields) && shipped == Obj(shipped.fields);
      SameDecoding(line.fields, shipped.fields);
      SameSignedForm(line.fields, shipped.fields);
    }
  }

  // ----- Exactly what verifies -----

  ghost predicate Lacks(f: seq<Field>, key: string) {
    (forall x | x in f :: x.key != key) || Field(key, Null) in f
  }

  /** The member is this text; one that is missing or null reads as the empty text. */
  ghost predicate TextAt(f: seq<Field>, key: string, s: string) {
    Field(key, Str(s)) in f || (s == "" && Lacks(f, key))
  }

  /** The member is this uint64; one that is missing or null reads as 0. */
  ghost predicate NumberAt(f: seq<Field>, key: string, n: int) {
    (0 <= n < TWO_64 && Field(key, Num(n)) in f) || (n == 0 && Lacks(f, key))
  }

  ghost predicate BrokerAt(f: seq<Field>, seen: Seen) {
    || (seen == Seen("", 0) && Lacks(f, "broker"))
    || exists b :: Field("broker", Obj(b)) in f && TextAt(b, "instance", seen.instance) && NumberAt(b, "seq", seen.seqNo)
  }

  /** rest lists the members of f other than the signature. */
  ghost predicate AllButSig(f: seq<Field>, rest: seq<Field>) {
    Distinct(rest) && forall x :: x in rest <==> x in f && x.key != "sig"
  }

  /** A lookup finds exactly the member of that name. */
  lemma FindExactly(f: seq<Field>, key: string)
    requires Distinct(f)
    ensures forall j :: Find(f, key) == Some(j) <==> Field(key, j) in f
    ensures Find(f, key) == None <==> forall x | x in f :: x.key != key
  {
    FindIsMember(f, key);
    forall j | Field(key, j) in f ensures Find(f, key) == Some(j) {
      var i :| 0 <= i < |f| && f[i] == Field(key, j);
      FindByKey(f, i);
    }
  }

  lemma TextExactly(f: seq<Field>, key: string, s: string)
    requires Distinct(f)
    ensures TextOr(Find(f, key)) == Some(s) <==> TextAt(f, key, s)
  {
    FindExactly(f, key);
  }

  lemma NumberExactly(f: seq<Field>, key: string, n: int)
    requires Distinct(f)
    ensures Uint64Or(Find(f, key)) == Some(n) <==> NumberAt(f, key, n)
  {
    FindExactly(f, key);
  }

  lemma BrokerExactly(f: seq<Field>, seen: Seen)
    requires WellFormed(Obj(f))
    ensures DecodeBroker(Find(f, "broker")) == Some(seen) <==> BrokerAt(f, seen)
  {
    FindExactly(f, "broker");
    FoundWellFormed(f, "broker");
    var found := Find(f, "broker");
    if found.Some? && found.value.Obj? {
      var b := found.value.fields;
      TextExactly(b, "instance", seen.instance);
      NumberExactly(b, "seq", seen.seqNo);
    }
  }

  /** What Verify accepts: an object with a non-empty text under sig that the check accepts for the
      canonical form of exactly the other members, and a broker member that reads as seen. */
  lemma VerifyExactly(f: seq<Field>, rest: seq<Field>, check: (Json, string) -> bool, seen: Seen)
    requires WellFormed(Obj(f)) && AllButSig(f, rest)
    ensures Verify(Obj(f), check) == Some(seen) <==>
            BrokerAt(f, seen) && exists sig :: sig != "" && Field("sig", Str(sig)) in f && check(Canon(Obj(rest)), sig)
    ensures forall j: Json | !j.Obj? :: Verify(j, check) == None
  {
    WithoutMembers(f, "sig");
    SameMembers(Without(f, "sig"), rest);
    BrokerExactly(f, seen);
    FindExactly(f, "sig");
  }

  /** A line altered in any member it was signed over is refused, unless the check accepts some text
      for what it has become. */
  lemma TamperedIsRefused(f: seq<Field>, rest: seq<Field>, check: (Json, string) -> bool)
    requires WellFormed(Obj(f)) && AllButSig(f, rest) && forall sig :: !check(Canon(Obj(rest)), sig)
    ensures Verify(Obj(f), check) == None
  {
    if Verify(Obj(f), check).Some? {
      VerifyExactly(f, rest, check, Verify(Obj(f), check).value);
    }
  }

  // ----- Every emitted line verifies -----

  lemma {:induction false} WithoutNothing(fields: seq<Field>, key: string)
    requires forall k | 0 <= k < |fields| :: fields[k].key != key
    ensures Without(fields, key) == fields
  {
    if fields != [] {
      WithoutNothing(fields[..|fields| - 1], key);
    }
  }

  lemma BrokerDecodes(instance: string, kid: string, seqNo: int)
    requires 0 <= seqNo < TWO_64
    ensures DecodeBroker(Some(Broker(instance, kid, seqNo))) == Some(Seen(instance, seqNo))
  {
    BrokerOk(instance, kid, seqNo);
    var f := Broker(instance, kid, seqNo).fields;
    FindByKey(f, 0);
    FindByKey(f, 2);
  }

  /** What Emit signed is what Verify rebuilds, so the line is accepted as written and in every
      reordering a log shipper may deliver it in. */
  lemma EmittedLineVerifies(ev: Event, ts: string, instance: string, kid: string, seqNo: int, keys: Keys, shipped: Json)
    requires EventOk(ev) && Lawful(keys) && 0 <= seqNo < TWO_64
    requires WellFormed(shipped) && Reordered(SignedLine(Envelope(ev, ts, instance, kid, seqNo), keys.sign), shipped)
    ensures WellFormed(SignedLine(Envelope(ev, ts, instance, kid, seqNo), keys.sign))
    ensures Canon(Obj(Without(shipped.fields, "sig"))) == Canon(Obj(Envelope(ev, ts, instance, kid, seqNo)))
    ensures Verify(shipped, keys.check) == Some(Seen(instance, seqNo))
  {
    var f := Envelope(ev, ts, instance, kid, seqNo);
    EnvelopeOk(ev, ts, instance, kid, seqNo);
    SignedLineVerifies(f, instance, kid, seqNo, keys);
    var line := SignedLine(f, keys.sign);
    VerifyIgnoresOrder(line, shipped, keys.check);
    SameSignedForm(line.fields, shipped.fields);
  }

  lemma SignedFields(f: seq<Field>, sig: string)
    requires WellFormed(Obj(f)) && forall k | 0 <= k < |f| :: f[k].key != "sig"
    ensures var g := f + [Field("sig", Str(sig))];
            && WellFormed(Obj(g)) && Without(g, "sig") == f
            && Find(g, "sig") == Some(Str(sig)) && Find(g, "broker") == Find(f, "broker")
  {
    var g := f + [Field("sig", Str(sig))];
    assert g[..|f|] == f;
    WithoutNothing(f, "sig");
    DistinctOneMore(f, Field("sig", Str(sig)));
  }

  lemma SignedLineVerifies(f: seq<Field>, instance: string, kid: string, seqNo: int, keys: Keys)
    requires WellFormed(Obj(f)) && (forall k | 0 <= k < |f| :: f[k].key != "sig")
    requires Field("broker", Broker(instance, kid, seqNo)) in f && Lawful(keys) && 0 <= seqNo < TWO_64
    ensures var line := SignedLine(f, keys.sign);
            && WellFormed(line) && Without(line.fields, "sig") == f
            && Verify(line, keys.check) == Some(Seen(instance, seqNo))
  {
    SignedFields(f, keys.sign(Canon(Obj(f))));
    BrokerFound(f, Broker(instance, kid, seqNo));
    BrokerDecodes(instance, kid, seqNo);
  }

  lemma BrokerFound(f: seq<Field>, broker: Json)
    requires Distinct(f) && Field("broker", broker) in f
    ensures Find(f, "broker") == Some(broker)
  {
    var b :| 0 <= b < |f| && f[b] == Field("broker", broker);
    FindByKey(f, b);
  }

  // ----- The emitter -----

  /** How one Emit can end. A write may fail after putting part of the line on the stream. */
  datatype Fate = Written | NotEncoded | WriteFailed(torn: bool)

  /** A line of the stream: a whole JSON value, bytes that are not one, or nothing. */
  datatype Line = Whole(json: Json) | Corrupt | Blank

  /** seqNo is the last committed number; torn says that the stream ends in the middle of a line. */
  datatype Stream = Stream(seqNo: int, lines: seq<Line>, torn: bool)

  datatype Id = Id(instance: string, kid: string)

  /** The number is committed only after the write succeeded. A line written behind a torn one
      runs together with it. */
  function EmitNext(s: Stream, id: Id, sign: Json -> string, ev: Event, ts: string, fate: Fate): Stream {
    match fate
    case NotEncoded => s
    case WriteFailed(torn) => s.(torn := s.torn || torn)
    case Written =>
      var seqNo := (s.seqNo + 1) % TWO_64;
      var line := SignedLine(Envelope(ev, ts, id.instance, id.kid, seqNo), sign);
      Stream(seqNo, s.lines + [if s.torn then Corrupt else Whole(line)], false)
  }

  /** What a successful Emit appends to a stream that is not torn. */
  lemma EmittedSays(s: Stream, id: Id, sign: Json -> string, ev: Event, ts: string) returns (f: seq<Field>)
    requires !s.torn
    ensures EmitNext(s, id, sign, ev, ts, Written) == Stream((s.seqNo + 1) % TWO_64, s.lines + [Whole(Obj(f))], false)
    ensures Says(f, ev, ts, id.instance, id.kid, (s.seqNo + 1) % TWO_64, sign)
  {
    f := SignedSays(ev, ts, id.instance, id.kid, (s.seqNo + 1) % TWO_64, sign);
    EmitAppends(s, id, sign, ev, ts, f);
  }

  lemma EmitAppends(s: Stream, id: Id, sign: Json -> string, ev: Event, ts: string, f: seq<Field>)
    requires !s.torn && SignedLine(Envelope(ev, ts, id.instance, id.kid, (s.seqNo + 1) % TWO_64), sign) == Obj(f)
    ensures EmitNext(s, id, sign, ev, ts, Written) == Stream((s.seqNo + 1) % TWO_64, s.lines + [Whole(Obj(f))], false)
  {
  }

  class Emitter {
    const id: Id
    const sign: Json -> string
    var seqNo: int
    var lines: seq<Line>
    var torn: bool

    ghost function State(): Stream
      reads this
    {
      Stream(seqNo, lines, torn)
    }

    constructor (id: Id, sign: Json -> string)
      ensures State() == Stream(0, [], false) && this.id == id && this.sign == sign
    {
      this.id, this.sign := id, sign;
      seqNo, lines, torn := 0, [], false;
    }

    /** ts is the formatted clock, fate how marshalling and writing went. */
    method Emit(ev: Event, ts: string, fate: Fate) returns (ok: bool)
      modifies this
      ensures ok <==> fate == Written
      ensures State() == EmitNext(old(State()), id, sign, ev, ts, fate)
      ensures !ok ==> seqNo == old(seqNo) && lines == old(lines)
      ensures ok ==> seqNo == (old(seqNo) + 1) % TWO_64 && |lines| == |old(lines)| + 1 && lines[..|old(lines)|] == old(lines) && !torn
    {
      var next := (seqNo + 1) % TWO_64;
      var unsigned := Envelope(ev, ts, id.instance, id.kid, next);
      if fate == NotEncoded {
        return false;
      }
      var sig := sign(Canon(Obj(unsigned)));
      var line := Obj(unsigned + [Field("sig", Str(sig))]);
      if fate.WriteFailed? {
        torn := torn || fate.torn;
        return false;
      }
      lines := lines + [if torn then Corrupt else Whole(line)];
      torn := false;
      seqNo := next;
      return true;
    }
  }
}
