/** The notify proxy's policy (internal/notify/policy.go), from decoded records on. */
module NotifyPolicy {
  import opened Base
  import BrokerPolicy = Policy

  const PUSH := "push"
  const CREATE := "persistent_create"
  const DISMISS := "persistent_dismiss"

  datatype Grant = Grant(kind: string, targets: seq<string>, idPrefix: string)

  datatype SubjectPolicy = SubjectPolicy(serviceAccount: string, grants: seq<Grant>)

  datatype Policy = Policy(subjects: seq<SubjectPolicy>, hash: string, byKey: map<string, map<string, Grant>>)

  /** [a-z0-9_]+, the pattern of targets here and of service names in the client. */
  predicate IsServiceName(s: string) {
    s != [] && forall i | 0 <= i < |s| :: BrokerPolicy.LowerOrDigit(s[i]) || s[i] == '_'
  }

  // ----- What a valid policy is -----

  predicate GrantOk(g: Grant) {
    || (g.kind == PUSH && g.targets != [] && forall i | 0 <= i < |g.targets| :: IsServiceName(g.targets[i]))
    || ((g.kind == CREATE || g.kind == DISMISS) && g.idPrefix != "")
  }

  ghost predicate GrantsOk(grants: seq<Grant>) {
    && (forall j | 0 <= j < |grants| :: GrantOk(grants[j]))
    && forall i, j | 0 <= i < j < |grants| :: grants[i].kind != grants[j].kind
  }

  ghost predicate ValidDocument(subjects: seq<SubjectPolicy>) {
    && (forall i | 0 <= i < |subjects| :: BrokerPolicy.IsSubjectKey(subjects[i].serviceAccount) && GrantsOk(subjects[i].grants))
    && forall i, j | 0 <= i < j < |subjects| :: subjects[i].serviceAccount != subjects[j].serviceAccount
  }

  // ----- The document's own meaning -----

  ghost predicate Grants(grants: seq<Grant>, kind: string, g: Grant) {
    exists j :: 0 <= j < |grants| && grants[j] == g && g.kind == kind
  }

  ghost predicate Subject(subjects: seq<SubjectPolicy>, key: string, sp: SubjectPolicy) {
    exists i :: 0 <= i < |subjects| && subjects[i] == sp && sp.serviceAccount == key
  }

  /** The document lists grant g, of this kind, under this subject. */
  ghost predicate Declares(subjects: seq<SubjectPolicy>, key: string, kind: string, g: Grant) {
    exists sp :: Subject(subjects, key, sp) && Grants(sp.grants, kind, g)
  }

  // ----- Parse -----

  ghost predicate GrantIndex(m: map<string, Grant>, grants: seq<Grant>) {
    forall kind, g :: (kind in m && m[kind] == g) <==> Grants(grants, kind, g)
  }

  ghost predicate SubjectIndex(m: map<string, map<string, Grant>>, subjects: seq<SubjectPolicy>) {
    && (forall key | key in m :: exists sp :: Subject(subjects, key, sp) && GrantIndex(m[key], sp.grants))
    && (forall key, sp | Subject(subjects, key, sp) :: key in m && GrantIndex(m[key], sp.grants))
  }

  /** The check of one push target after another. */
  method TargetsOk(targets: seq<string>) returns (ok: bool)
    ensures ok <==> forall i | 0 <= i < |targets| :: IsServiceName(targets[i])
  {
    for i := 0 to |targets|
      invariant forall k | 0 <= k < i :: IsServiceName(targets[k])
    {
      if !IsServiceName(targets[i]) {
        return false;
      }
    }
    return true;
  }

  lemma OneMoreGrant(m: map<string, Grant>, grants: seq<Grant>, i: nat)
    requires i < |grants| && GrantIndex(m, grants[..i]) && GrantsOk(grants[..i])
    ensures grants[i].kind in m <==> exists k :: 0 <= k < i && grants[k].kind == grants[i].kind
    ensures grants[i].kind !in m ==> GrantIndex(m[grants[i].kind := grants[i]], grants[..i + 1])
  {
    var g, before, next := grants[i], grants[..i], grants[..i + 1];
    assert next[i] == g && forall k | 0 <= k < i :: next[k] == before[k];
    if g.kind in m {
      assert Grants(before, g.kind, m[g.kind]);
    }
    if k :| 0 <= k < i && before[k].kind == g.kind {
      assert Grants(before, g.kind, before[k]);
    }
    forall kind, h ensures Grants(next, kind, h) <==> Grants(before, kind, h) || (h == g && kind == g.kind) {
      if Grants(before, kind, h) {
        var k :| 0 <= k < |before| && before[k] == h && h.kind == kind;
        assert next[k] == h;
      }
    }
  }

  /** The grant loop of Parse, for one subject. */
  method IndexGrants(grants: seq<Grant>) returns (r: Option<map<string, Grant>>)
    ensures r.Some? <==> GrantsOk(grants)
    ensures r.Some? ==> GrantIndex(r.value, grants)
  {
    var byKind: map<string, Grant> := map[];
    for j := 0 to |grants|
      invariant GrantsOk(grants[..j]) && GrantIndex(byKind, grants[..j])
    {
      var g := grants[j];
      OneMoreGrant(byKind, grants, j);
      if (g.kind != PUSH && g.kind != CREATE && g.kind != DISMISS) || g.kind in byKind {
        return None;
      }
      if g.kind == PUSH {
        var ok := TargetsOk(g.targets);
        if |g.targets| == 0 || !ok {
          return None;
        }
      } else if g.idPrefix == "" {
        return None;
      }
      assert GrantOk(g) && forall k | 0 <= k < j :: grants[..j][k] == grants[k];
      byKind := byKind[g.kind := g];
    }
    assert grants[..|grants|] == grants;
    return Some(byKind);
  }

  lemma OneMoreSubject(m: map<string, map<string, Grant>>, subjects: seq<SubjectPolicy>, i: nat)
    requires i < |subjects| && SubjectIndex(m, subjects[..i])
    ensures subjects[i].serviceAccount in m <==> exists k :: 0 <= k < i && subjects[k].serviceAccount == subjects[i].serviceAccount
  {
    var key, before := subjects[i].serviceAccount, subjects[..i];
    if key in m {
      var sp :| Subject(before, key, sp) && GrantIndex(m[key], sp.grants);
    }
    if k :| 0 <= k < i && before[k].serviceAccount == key {
      assert Subject(before, key, before[k]);
    }
  }

  lemma IndexedSubject(m: map<string, map<string, Grant>>, subjects: seq<SubjectPolicy>, i: nat, grants: map<string, Grant>)
    requires i < |subjects| && SubjectIndex(m, subjects[..i]) && subjects[i].serviceAccount !in m && GrantIndex(grants, subjects[i].grants)
    ensures SubjectIndex(m[subjects[i].serviceAccount := grants], subjects[..i + 1])
  {
    var sp, before, next := subjects[i], subjects[..i], subjects[..i + 1];
    assert next[i] == sp && forall k | 0 <= k < i :: next[k] == before[k];
    forall key, q ensures Subject(next, key, q) <==> Subject(before, key, q) || (q == sp && key == sp.serviceAccount) {
      if Subject(before, key, q) {
        var k :| 0 <= k < |before| && before[k] == q && q.serviceAccount == key;
        assert next[k] == q;
      }
    }
  }

  /** A document is valid as far as it has been read, and no further. */
  lemma OneMoreValid(m: map<string, map<string, Grant>>, subjects: seq<SubjectPolicy>, i: nat)
    requires i < |subjects| && ValidDocument(subjects[..i]) && SubjectIndex(m, subjects[..i])
    ensures ValidDocument(subjects[..i + 1]) <==>
            BrokerPolicy.IsSubjectKey(subjects[i].serviceAccount) && GrantsOk(subjects[i].grants) && subjects[i].serviceAccount !in m
    ensures ValidDocument(subjects) ==> ValidDocument(subjects[..i + 1])
  {
    OneMoreSubject(m, subjects, i);
    var before, next := subjects[..i], subjects[..i + 1];
    assert next[i] == subjects[i] && forall k | 0 <= k < i :: next[k] == before[k] == subjects[k];
  }

  /** Accepts exactly the valid documents, and indexes what they declare. */
  method Parse(subjects: seq<SubjectPolicy>, hash: string) returns (r: Option<Policy>)
    ensures r.Some? <==> ValidDocument(subjects)
    ensures r.Some? ==> r.value.subjects == subjects && r.value.hash == hash && Parsed(r.value)
  {
    var byKey: map<string, map<string, Grant>> := map[];
    for i := 0 to |subjects|
      invariant ValidDocument(subjects[..i]) && SubjectIndex(byKey, subjects[..i])
    {
      var sp := subjects[i];
      OneMoreValid(byKey, subjects, i);
      if !BrokerPolicy.IsSubjectKey(sp.serviceAccount) || sp.serviceAccount in byKey {
        return None;
      }
      var grants := IndexGrants(sp.grants);
      if grants.None? {
        return None;
      }
      IndexedSubject(byKey, subjects, i, grants.value);
      byKey := byKey[sp.serviceAccount := grants.value];
    }
    assert subjects[..|subjects|] == subjects;
    return Some(Policy(subjects, hash, byKey));
  }

  /** A policy that Parse produced. */
  ghost predicate Parsed(p: Policy) {
    ValidDocument(p.subjects) && SubjectIndex(p.byKey, p.subjects)
  }

  // ----- Lookups -----

  function GrantOf(p: Policy, key: string, kind: string): Option<Grant> {
    if key in p.byKey && kind in p.byKey[key] then Some(p.byKey[key][kind]) else None
  }

  function PushTarget(p: Policy, key: string): string {
    var g := GrantOf(p, key, PUSH);
    if g.None? || g.value.targets == [] then "" else g.value.targets[0]
  }

  /** The lookup finds a grant exactly when the document declares it, and a declared grant is valid. */
  lemma GrantIffDeclared(p: Policy, key: string, kind: string, g: Grant)
    requires Parsed(p)
    ensures GrantOf(p, key, kind) == Some(g) <==> Declares(p.subjects, key, kind, g)
    ensures GrantOf(p, key, kind) == Some(g) ==> GrantOk(g) && g.kind == kind && BrokerPolicy.IsSubjectKey(key)
  {
    if GrantOf(p, key, kind) == Some(g) {
      var sp :| Subject(p.subjects, key, sp) && GrantIndex(p.byKey[key], sp.grants);
      assert Grants(sp.grants, kind, g);
    }
  }

  /** The pinned target is empty exactly for subjects without a push grant, and is else the first
      target of the one declared, fit for a URL segment. */
  lemma PushTargetIsPinned(p: Policy, key: string)
    requires Parsed(p)
    ensures PushTarget(p, key) == "" <==> !exists g :: Declares(p.subjects, key, PUSH, g)
    ensures forall g | Declares(p.subjects, key, PUSH, g) ::
              g.targets != [] && PushTarget(p, key) == g.targets[0] && IsServiceName(PushTarget(p, key))
  {
    forall g ensures GrantOf(p, key, PUSH) == Some(g) <==> Declares(p.subjects, key, PUSH, g) {
      GrantIffDeclared(p, key, PUSH, g);
    }
    var found := GrantOf(p, key, PUSH);
    if found.Some? {
      GrantIffDeclared(p, key, PUSH, found.value);
    }
  }
}
