/** The deny-by-default grant policy (internal/policy/policy.go), from decoded records on. */
module Policy {
  import opened Base
  import opened Strings

  datatype Scope = Scope(
    name: string, provider: string, ref: string,
    fields: map<string, string>, params: map<string, string>)

  datatype IssueWindow = IssueWindow(cron: string, duration: Duration)

  datatype Grant = Grant(scope: string, ttlDefault: Duration, ttlMax: Duration, renewable: bool, windows: seq<IssueWindow>)

  datatype SubjectPolicy = SubjectPolicy(serviceAccount: string, grants: seq<Grant>, claimBytesPerDay: int)

  datatype Policy = Policy(
    scopes: seq<Scope>, subjects: seq<SubjectPolicy>, hash: string,
    scopeByName: map<string, Scope>, grantBySubj: map<string, map<string, Grant>>)

  // ----- Load-time patterns -----

  predicate LowerOrDigit(c: char) {
    'a' <= c <= 'z' || '0' <= c <= '9'
  }

  predicate All(s: string, p: char -> bool) {
    forall i | 0 <= i < |s| :: p(s[i])
  }

  /** [a-z0-9]([-a-z0-9]*[a-z0-9])? */
  predicate IsLabel(s: string) {
    s != [] && All(s, c => c == '-' || LowerOrDigit(c)) && LowerOrDigit(s[0]) && LowerOrDigit(s[|s| - 1])
  }

  /** Two labels with a slash between them. */
  predicate IsSubjectKey(s: string) {
    var (ns, sa, ok) := Cut(s, '/');
    ok && IsLabel(ns) && IsLabel(sa)
  }

  predicate IsOpRef(s: string) {
    && |s| == 66 && s[..7] == "vaults/" && s[33..40] == "/items/"
    && All(s[7..33], c => LowerOrDigit(c)) && All(s[40..], c => LowerOrDigit(c))
  }

  predicate IsInstallationRef(s: string) {
    |s| > 14 && s[..14] == "installations/" && All(s[14..], c => '0' <= c <= '9')
  }

  predicate IsPermissionName(k: string) {
    k != [] && All(k, c => 'a' <= c <= 'z' || c == '_')
  }

  predicate IsAccess(v: string) {
    v == "read" || v == "write" || v == "admin"
  }

  /** One [a-z_]+=(read|write|admin) entry. */
  predicate IsPermission(part: string) {
    var (k, v, ok) := Cut(part, '=');
    ok && IsPermissionName(k) && IsAccess(v)
  }

  predicate IsPermissions(s: string) {
    var parts := Split(s, ',');
    forall i | 0 <= i < |parts| :: IsPermission(parts[i])
  }

  predicate IsRepoName(part: string) {
    part != [] && All(part, c => 'a' <= c <= 'z' || 'A' <= c <= 'Z' || '0' <= c <= '9' || c == '.' || c == '_' || c == '-')
  }

  predicate IsRepositories(s: string) {
    var parts := Split(s, ',');
    forall i | 0 <= i < |parts| :: IsRepoName(parts[i])
  }

  function Param(s: Scope, name: string): string {
    if name in s.params then s.params[name] else ""
  }

  // ----- What a valid policy is -----

  predicate GithubScopeOk(s: Scope) {
    && IsInstallationRef(s.ref)
    && IsPermissions(Param(s, "permissions"))
    && (Param(s, "repositories") == "" || IsRepositories(Param(s, "repositories")))
    && forall f | f in s.fields :: s.fields[f] == "token"
  }

  predicate ScopeOk(s: Scope) {
    && s.name != "" && s.fields != map[]
    && ((s.provider == "onepassword-connect" && IsOpRef(s.ref)) || (s.provider == "github-app" && GithubScopeOk(s)))
  }

  predicate GrantOk(g: Grant, cronOk: string -> bool) {
    && 0 < g.ttlDefault <= g.ttlMax
    && forall k | 0 <= k < |g.windows| :: cronOk(g.windows[k].cron) && g.windows[k].duration > 0
  }

  ghost predicate ScopesOk(scopes: seq<Scope>) {
    && (forall i | 0 <= i < |scopes| :: ScopeOk(scopes[i]))
    && forall i, j | 0 <= i < j < |scopes| :: scopes[i].name != scopes[j].name
  }

  ghost predicate Declared(scopes: seq<Scope>, name: string) {
    exists i :: 0 <= i < |scopes| && scopes[i].name == name
  }

  ghost predicate GrantsOk(grants: seq<Grant>, scopes: seq<Scope>, cronOk: string -> bool) {
    && (forall j | 0 <= j < |grants| :: Declared(scopes, grants[j].scope) && GrantOk(grants[j], cronOk))
    && forall i, j | 0 <= i < j < |grants| :: grants[i].scope != grants[j].scope
  }

  ghost predicate SubjectsOk(subjects: seq<SubjectPolicy>, scopes: seq<Scope>, cronOk: string -> bool) {
    && (forall i | 0 <= i < |subjects| ::
          IsSubjectKey(subjects[i].serviceAccount) && GrantsOk(subjects[i].grants, scopes, cronOk))
    && forall i, j | 0 <= i < j < |subjects| :: subjects[i].serviceAccount != subjects[j].serviceAccount
  }

  ghost predicate ValidDocument(scopes: seq<Scope>, subjects: seq<SubjectPolicy>, cronOk: string -> bool) {
    ScopesOk(scopes) && SubjectsOk(subjects, scopes, cronOk)
  }

  // ----- Searching the declared lists -----

  function FindScope(scopes: seq<Scope>, name: string): Option<Scope> {
    if scopes == [] then None
    else
      var n := |scopes| - 1;
      var earlier := FindScope(scopes[..n], name);
      if earlier.Some? then earlier else if scopes[n].name == name then Some(scopes[n]) else None
  }

  function FindGrant(grants: seq<Grant>, scope: string): Option<Grant> {
    if grants == [] then None
    else
      var n := |grants| - 1;
      var earlier := FindGrant(grants[..n], scope);
      if earlier.Some? then earlier else if grants[n].scope == scope then Some(grants[n]) else None
  }

  function FindSubject(subjects: seq<SubjectPolicy>, key: string): Option<SubjectPolicy> {
    if subjects == [] then None
    else
      var n := |subjects| - 1;
      var earlier := FindSubject(subjects[..n], key);
      if earlier.Some? then earlier else if subjects[n].serviceAccount == key then Some(subjects[n]) else None
  }

  // ----- Lookups in the built maps -----

  function Lookup<T>(m: map<string, T>, k: string): Option<T> {
    if k in m then Some(m[k]) else None
  }

  /** Policy.Scope: nil for unknown names. */
  function ScopeOf(p: Policy, name: string): Option<Scope> {
    Lookup(p.scopeByName, name)
  }

  /** Policy.Grant: a lookup in a missing inner map finds nothing. */
  function GrantOf(p: Policy, key: string, scope: string): Option<Grant> {
    if key in p.grantBySubj then Lookup(p.grantBySubj[key], scope) else None
  }

  /** Policy.ClaimBytesCap: 0, unlimited, for a subject the policy does not name. */
  function ClaimBytesCap(p: Policy, key: string): int {
    match FindSubject(p.subjects, key)
    case Some(sp) => sp.claimBytesPerDay
    case None => 0
  }

  /** The cap charged is the one the document declares for the subject; 0 if it names none. */
  lemma CapIsDeclared(p: Policy, cronOk: string -> bool, key: string)
    requires Parsed(p, cronOk)
    ensures forall i | 0 <= i < |p.subjects| && p.subjects[i].serviceAccount == key :: ClaimBytesCap(p, key) == p.subjects[i].claimBytesPerDay
    ensures (forall i | 0 <= i < |p.subjects| :: p.subjects[i].serviceAccount != key) ==> ClaimBytesCap(p, key) == 0
  {
    FoundSubject(p.subjects, key);
    if FindSubject(p.subjects, key).Some? {
      var k :| 0 <= k < |p.subjects| && p.subjects[k] == FindSubject(p.subjects, key).value;
      assert forall i | 0 <= i < |p.subjects| && p.subjects[i].serviceAccount == key :: i == k;
    }
  }

  /** The maps answer every lookup as a search of the declared lists would. */
  ghost predicate IndexesAgree(p: Policy) {
    && (forall name :: ScopeOf(p, name) == FindScope(p.scopes, name))
    && SubjectsAgree(p.grantBySubj, p.subjects)
  }

  lemma {:induction false} FoundScope(scopes: seq<Scope>, name: string)
    ensures FindScope(scopes, name).Some? <==> Declared(scopes, name)
    ensures FindScope(scopes, name).Some? ==> FindScope(scopes, name).value in scopes && FindScope(scopes, name).value.name == name
  {
    if scopes != [] {
      var n := |scopes| - 1;
      FoundScope(scopes[..n], name);
      assert scopes == scopes[..n] + [scopes[n]];
    }
  }

  lemma {:induction false} FoundGrant(grants: seq<Grant>, scope: string)
    ensures FindGrant(grants, scope).Some? <==> exists j :: 0 <= j < |grants| && grants[j].scope == scope
    ensures FindGrant(grants, scope).Some? ==> FindGrant(grants, scope).value in grants && FindGrant(grants, scope).value.scope == scope
  {
    if grants != [] {
      var n := |grants| - 1;
      FoundGrant(grants[..n], scope);
      assert grants == grants[..n] + [grants[n]];
    }
  }

  lemma {:induction false} FoundSubject(subjects: seq<SubjectPolicy>, key: string)
    ensures FindSubject(subjects, key).Some? <==> exists i :: 0 <= i < |subjects| && subjects[i].serviceAccount == key
    ensures FindSubject(subjects, key).Some? ==>
              FindSubject(subjects, key).value in subjects && FindSubject(subjects, key).value.serviceAccount == key
  {
    if subjects != [] {
      var n := |subjects| - 1;
      FoundSubject(subjects[..n], key);
      assert subjects == subjects[..n] + [subjects[n]];
    }
  }

  // ----- Parse -----

  /** A list of scopes is valid as far as it has been read, and no further. */
  lemma OneMoreScope(scopes: seq<Scope>, i: nat)
    requires i < |scopes| && ScopesOk(scopes[..i])
    ensures ScopesOk(scopes[..i + 1]) <==> ScopeOk(scopes[i]) && FindScope(scopes[..i], scopes[i].name).None?
    ensures ScopesOk(scopes) ==> ScopesOk(scopes[..i + 1])
  {
    FoundScope(scopes[..i], scopes[i].name);
    var before, next := scopes[..i], scopes[..i + 1];
    assert next[i] == scopes[i] && forall k | 0 <= k < i :: next[k] == before[k] == scopes[k];
  }

  /** The scope loop of Parse: None as soon as a scope is rejected. */
  method IndexScopes(scopes: seq<Scope>) returns (r: Option<map<string, Scope>>)
    ensures r.Some? <==> ScopesOk(scopes)
    ensures r.Some? ==> forall name :: Lookup(r.value, name) == FindScope(scopes, name)
  {
    var byName: map<string, Scope> := map[];
    for i := 0 to |scopes|
      invariant ScopesOk(scopes[..i])
      invariant forall name :: Lookup(byName, name) == FindScope(scopes[..i], name)
    {
      var s := scopes[i];
      OneMoreScope(scopes, i);
      assert scopes[..i + 1][..i] == scopes[..i];
      assert Lookup(byName, s.name) == FindScope(scopes[..i], s.name);
      if s.name in byName {
        return None;
      }
      if !ScopeOk(s) {
        return None;
      }
      byName := byName[s.name := s];
    }
    assert scopes[..|scopes|] == scopes;
    return Some(byName);
  }

  /** A list of grants is valid as far as it has been read, and no further. */
  lemma OneMoreGrant(grants: seq<Grant>, j: nat, scopes: seq<Scope>, cronOk: string -> bool)
    requires j < |grants| && GrantsOk(grants[..j], scopes, cronOk)
    ensures GrantsOk(grants[..j + 1], scopes, cronOk) <==>
            FindScope(scopes, grants[j].scope).Some? && GrantOk(grants[j], cronOk) && FindGrant(grants[..j], grants[j].scope).None?
    ensures GrantsOk(grants, scopes, cronOk) ==> GrantsOk(grants[..j + 1], scopes, cronOk)
  {
    FoundScope(scopes, grants[j].scope);
    FoundGrant(grants[..j], grants[j].scope);
    var before, next := grants[..j], grants[..j + 1];
    assert next[j] == grants[j] && forall k | 0 <= k < j :: next[k] == before[k] == grants[k];
  }

  /** The grant loop of Parse, for one subject. */
  method IndexGrants(grants: seq<Grant>, scopes: seq<Scope>, byName: map<string, Scope>, cronOk: string -> bool)
    returns (r: Option<map<string, Grant>>)
    requires forall name :: Lookup(byName, name) == FindScope(scopes, name)
    ensures r.Some? <==> GrantsOk(grants, scopes, cronOk)
    ensures r.Some? ==> forall scope :: Lookup(r.value, scope) == FindGrant(grants, scope)
  {
    var byScope: map<string, Grant> := map[];
    for j := 0 to |grants|
      invariant GrantsOk(grants[..j], scopes, cronOk)
      invariant forall scope :: Lookup(byScope, scope) == FindGrant(grants[..j], scope)
    {
      var g := grants[j];
      OneMoreGrant(grants, j, scopes, cronOk);
      assert Lookup(byName, g.scope) == FindScope(scopes, g.scope);
      assert Lookup(byScope, g.scope) == FindGrant(grants[..j], g.scope);
      assert grants[..j + 1][..j] == grants[..j];
      if g.scope !in byName || g.scope in byScope || !GrantOk(g, cronOk) {
        return None;
      }
      byScope := byScope[g.scope := g];
    }
    assert grants[..|grants|] == grants;
    return Some(byScope);
  }

  /** A list of subjects is valid as far as it has been read, and no further. */
  lemma OneMoreSubject(subjects: seq<SubjectPolicy>, i: nat, scopes: seq<Scope>, cronOk: string -> bool)
    requires i < |subjects| && SubjectsOk(subjects[..i], scopes, cronOk)
    ensures SubjectsOk(subjects[..i + 1], scopes, cronOk) <==>
            && IsSubjectKey(subjects[i].serviceAccount) && GrantsOk(subjects[i].grants, scopes, cronOk)
            && FindSubject(subjects[..i], subjects[i].serviceAccount).None?
    ensures SubjectsOk(subjects, scopes, cronOk) ==> SubjectsOk(subjects[..i + 1], scopes, cronOk)
  {
    var before, next, sp := subjects[..i], subjects[..i + 1], subjects[i];
    FoundSubject(before, sp.serviceAccount);
    assert next[i] == sp && forall k | 0 <= k < i :: next[k] == before[k];
  }

  lemma OneMoreFound(subjects: seq<SubjectPolicy>, i: nat, key: string)
    requires i < |subjects|
    ensures FindSubject(subjects[..i + 1], key) ==
            var earlier := FindSubject(subjects[..i], key);
            if earlier.Some? then earlier else if subjects[i].serviceAccount == key then Some(subjects[i]) else None
  {
    assert subjects[..i + 1][..i] == subjects[..i];
  }

  /** Each subject's map answers as a search of the subjects read so far would. */
  ghost predicate SubjectsAgree(bySubj: map<string, map<string, Grant>>, subjects: seq<SubjectPolicy>) {
    && (forall key :: key in bySubj <==> FindSubject(subjects, key).Some?)
    && (forall key, scope | key in bySubj ::
          Lookup(bySubj[key], scope) == FindGrant(FindSubject(subjects, key).value.grants, scope))
  }

  lemma AgreeOneMore(bySubj: map<string, map<string, Grant>>, subjects: seq<SubjectPolicy>, i: nat, grants: map<string, Grant>)
    requires i < |subjects| && SubjectsAgree(bySubj, subjects[..i])
    requires subjects[i].serviceAccount !in bySubj
    requires forall scope :: Lookup(grants, scope) == FindGrant(subjects[i].grants, scope)
    ensures SubjectsAgree(bySubj[subjects[i].serviceAccount := grants], subjects[..i + 1])
  {
    forall key
      ensures FindSubject(subjects[..i + 1], key) ==
              var earlier := FindSubject(subjects[..i], key);
              if earlier.Some? then earlier else if subjects[i].serviceAccount == key then Some(subjects[i]) else None
    {
      OneMoreFound(subjects, i, key);
    }
  }

  /** Accepts exactly the valid documents, and the maps it builds agree with the declared lists. */
  method Parse(scopes: seq<Scope>, subjects: seq<SubjectPolicy>, hash: string, cronOk: string -> bool)
    returns (r: Option<Policy>)
    ensures r.Some? <==> ValidDocument(scopes, subjects, cronOk)
    ensures r.Some? ==>
              && r.value.scopes == scopes && r.value.subjects == subjects && r.value.hash == hash
              && IndexesAgree(r.value)
  {
    var byName := IndexScopes(scopes);
    if byName.None? {
      return None;
    }
    var bySubj: map<string, map<string, Grant>> := map[];
    for i := 0 to |subjects|
      invariant SubjectsOk(subjects[..i], scopes, cronOk)
      invariant SubjectsAgree(bySubj, subjects[..i])
    {
      var sp := subjects[i];
      OneMoreSubject(subjects, i, scopes, cronOk);
      if !IsSubjectKey(sp.serviceAccount) || sp.serviceAccount in bySubj {
        return None;
      }
      var grants := IndexGrants(sp.grants, scopes, byName.value, cronOk);
      if grants.None? {
        return None;
      }
      AgreeOneMore(bySubj, subjects, i, grants.value);
      bySubj := bySubj[sp.serviceAccount := grants.value];
    }
    assert subjects[..|subjects|] == subjects;
    return Some(Policy(scopes, subjects, hash, byName.value, bySubj));
  }

  /** A policy that Parse produced. */
  ghost predicate Parsed(p: Policy, cronOk: string -> bool) {
    ValidDocument(p.scopes, p.subjects, cronOk) && IndexesAgree(p)
  }

  /** A grant comes from a declared subject with a well-formed key, its TTLs are ordered, and the
      scope it names exists, so create never dereferences a nil scope. */
  lemma GrantFacts(p: Policy, cronOk: string -> bool, key: string, scope: string)
    requires Parsed(p, cronOk) && GrantOf(p, key, scope).Some?
    ensures IsSubjectKey(key)
    ensures ScopeOf(p, scope).Some? && ScopeOk(ScopeOf(p, scope).value)
    ensures GrantOk(GrantOf(p, key, scope).value, cronOk) && GrantOf(p, key, scope).value.scope == scope
  {
    FoundSubject(p.subjects, key);
    var sp := FindSubject(p.subjects, key).value;
    FoundGrant(sp.grants, scope);
    FoundScope(p.scopes, scope);
    var i :| 0 <= i < |p.subjects| && p.subjects[i] == sp;
    assert GrantsOk(p.subjects[i].grants, p.scopes, cronOk);
  }

  ghost predicate DeclaredAt(p: Policy, key: string, scope: string, g: Grant, i: int, j: int) {
    && 0 <= i < |p.subjects| && p.subjects[i].serviceAccount == key
    && 0 <= j < |p.subjects[i].grants| && p.subjects[i].grants[j] == g && g.scope == scope
  }

  /** After a successful Parse, the map lookup finds a grant exactly when the document declares it. */
  lemma GrantIffDeclared(p: Policy, cronOk: string -> bool, key: string, scope: string, g: Grant)
    requires Parsed(p, cronOk)
    ensures GrantOf(p, key, scope) == Some(g) <==> exists i, j :: DeclaredAt(p, key, scope, g, i, j)
  {
    FoundSubject(p.subjects, key);
    if key in p.grantBySubj {
      var sp := FindSubject(p.subjects, key).value;
      var i :| 0 <= i < |p.subjects| && p.subjects[i] == sp;
      FoundGrant(sp.grants, scope);
      assert GrantOf(p, key, scope) == FindGrant(sp.grants, scope);
      if GrantOf(p, key, scope) == Some(g) {
        var j :| 0 <= j < |sp.grants| && sp.grants[j] == g;
        assert DeclaredAt(p, key, scope, g, i, j);
      }
      if i', j :| DeclaredAt(p, key, scope, g, i', j) {
        assert i' == i && GrantsOk(sp.grants, p.scopes, cronOk);
        var found := FindGrant(sp.grants, scope).value;
        var k :| 0 <= k < |sp.grants| && sp.grants[k] == found;
        assert k == j;
      }
    }
  }

  // ----- Subject keys split one way -----

  datatype Subject = Subject(namespace: string, serviceAccount: string)

  function Key(s: Subject): string {
    s.namespace + "/" + s.serviceAccount
  }

  /** strings.Cut at the first slash: how a sweep rebuilds the subject of a lease. */
  function SubjectOfKey(key: string): Subject {
    var (ns, sa, _) := Cut(key, '/');
    Subject(ns, sa)
  }

  lemma LabelHasNoSlash(s: string)
    requires IsLabel(s)
    ensures '/' !in s
  {
    var p := c => c == '-' || LowerOrDigit(c);
    assert All(s, p);
  }

  /** The subject pattern accepts exactly the keys made of two labels, and each in one way only. */
  lemma SubjectKeyShape(key: string)
    ensures IsSubjectKey(key) <==> exists s: Subject :: IsLabel(s.namespace) && IsLabel(s.serviceAccount) && key == Key(s)
  {
    CutRejoins(key, '/');
    if IsSubjectKey(key) {
      assert key == Key(SubjectOfKey(key));
    }
    if s: Subject :| IsLabel(s.namespace) && IsLabel(s.serviceAccount) && key == Key(s) {
      LabelHasNoSlash(s.namespace);
      CutAtSep(s.namespace, '/', s.serviceAccount);
    }
  }

  lemma SubjectRoundTrip(s: Subject)
    requires IsSubjectKey(Key(s))
    ensures SubjectOfKey(Key(s)) == s
  {
    CutRejoins(Key(s), '/');
    var t := SubjectOfKey(Key(s));
    LabelHasNoSlash(t.namespace);
    LabelHasNoSlash(t.serviceAccount);
    var a, b := |s.namespace|, |t.namespace|;
    assert Key(s) == Key(t);
    assert Key(s)[a] == '/' && Key(t)[b] == '/';
    assert a == b;
    assert s.namespace == Key(s)[..a] && s.serviceAccount == Key(s)[a + 1..];
  }

  // ----- Issue windows -----

  /** A cron schedule: when it fires, and the library's Next. */
  datatype Schedules = Schedules(fires: (string, int) -> bool, next: (string, int) -> int)

  /** Next is the least fire time strictly after its argument. */
  ghost predicate NextIsLeast(s: Schedules) {
    forall cron, t ::
      && s.fires(cron, s.next(cron, t)) && s.next(cron, t) > t
      && forall f | s.fires(cron, f) && f > t :: s.next(cron, t) <= f
  }

  predicate Open(s: Schedules, w: IssueWindow, t: int) {
    !(s.next(w.cron, t - w.duration) > t)
  }

  predicate WindowOpen(s: Schedules, g: Grant, t: int) {
    g.windows == [] || exists i :: 0 <= i < |g.windows| && Open(s, g.windows[i], t)
  }

  /** Some fire of some window of the grant lies in the window's length up to t. */
  ghost predicate FiredWithin(s: Schedules, g: Grant, t: int) {
    exists i, f :: 0 <= i < |g.windows| && s.fires(g.windows[i].cron, f) && t - g.windows[i].duration < f <= t
  }

  lemma OpenIffFired(s: Schedules, g: Grant, t: int)
    requires NextIsLeast(s)
    ensures WindowOpen(s, g, t) <==> g.windows == [] || FiredWithin(s, g, t)
  {
    if i :| 0 <= i < |g.windows| && Open(s, g.windows[i], t) {
      var w := g.windows[i];
      var f := s.next(w.cron, t - w.duration);
      assert s.fires(w.cron, f) && t - w.duration < f <= t;
    }
    if i, f :| 0 <= i < |g.windows| && s.fires(g.windows[i].cron, f) && t - g.windows[i].duration < f <= t {
      assert Open(s, g.windows[i], t);
    }
  }
}
