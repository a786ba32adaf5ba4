/** The GitHub App provider's reading of a policy scope (internal/provider/github.go). */
module GitHub {
  import opened Base
  import opened Strings
  import opened Policy

  datatype Entry = Entry(name: string, access: string)

  // ----- The grammar of params.permissions -----

  predicate EntryOk(e: Entry) {
    IsPermissionName(e.name) && IsAccess(e.access)
  }

  function PrintEntry(e: Entry): string {
    e.name + "=" + e.access
  }

  function PrintEntries(es: seq<Entry>): seq<string> {
    seq(|es|, i requires 0 <= i < |es| => PrintEntry(es[i]))
  }

  /** name=access entries with commas between them. */
  function Print(es: seq<Entry>): string {
    Join(PrintEntries(es), ',')
  }

  ghost predicate EntriesOk(es: seq<Entry>) {
    es != [] && forall i | 0 <= i < |es| :: EntryOk(es[i])
  }

  /** Entry i is the last one of its name. */
  ghost predicate LastOfName(es: seq<Entry>, i: int) {
    0 <= i < |es| && forall j | i < j < |es| :: es[j].name != es[i].name
  }

  /** What a list of entries means: every name it holds, with the access its last entry gives it. */
  ghost predicate Denotes(es: seq<Entry>, m: map<string, string>) {
    && (forall i | 0 <= i < |es| :: es[i].name in m)
    && forall k | k in m :: exists i :: LastOfName(es, i) && es[i] == Entry(k, m[k])
  }

  lemma NameHasNo(k: string, c: char)
    requires IsPermissionName(k) && !('a' <= c <= 'z') && c != '_'
    ensures c !in k
  {
    var p := d => 'a' <= d <= 'z' || d == '_';
    assert All(k, p);
  }

  lemma NameHasNoSpace(k: string)
    requires IsPermissionName(k)
    ensures TrimSpace(k) == k
  {
    var p := d => 'a' <= d <= 'z' || d == '_';
    assert All(k, p);
    assert p(k[0]) && p(k[|k| - 1]);
    TrimNothing(k);
  }

  lemma EntryShape(e: Entry)
    requires EntryOk(e)
    ensures Cut(PrintEntry(e), '=') == (e.name, e.access, true)
    ensures ',' !in PrintEntry(e) && TrimSpace(PrintEntry(e)) == PrintEntry(e)
  {
    NameHasNo(e.name, '=');
    NameHasNo(e.name, ',');
    CutAtSep(e.name, '=', e.access);
    var p := d => 'a' <= d <= 'z' || d == '_';
    assert All(e.name, p) && p(e.name[0]);
    TrimNothing(PrintEntry(e));
  }

  lemma SplitOfPrint(es: seq<Entry>)
    requires EntriesOk(es)
    ensures Split(Print(es), ',') == PrintEntries(es)
  {
    forall i | 0 <= i < |es| ensures ',' !in PrintEntries(es)[i] {
      EntryShape(es[i]);
    }
    SplitOfJoin(PrintEntries(es), ',');
  }

  /** The load-time pattern accepts exactly the printed forms of the grammar. */
  lemma PermissionsPattern(s: string)
    ensures IsPermissions(s) <==> exists es :: EntriesOk(es) && s == Print(es)
  {
    if IsPermissions(s) {
      var parts := Split(s, ',');
      var es := seq(|parts|, i requires 0 <= i < |parts| => var (k, v, _) := Cut(parts[i], '='); Entry(k, v));
      forall i | 0 <= i < |parts| ensures EntryOk(es[i]) && PrintEntry(es[i]) == parts[i] {
        CutRejoins(parts[i], '=');
      }
      assert PrintEntries(es) == parts;
      JoinOfSplit(s, ',');
      assert EntriesOk(es) && s == Print(es);
    }
    if es :| EntriesOk(es) && s == Print(es) {
      SplitOfPrint(es);
      forall i | 0 <= i < |es| ensures IsPermission(PrintEntries(es)[i]) {
        EntryShape(es[i]);
      }
    }
  }

  // ----- parsePermissions and parseList -----

  /** The entry one part contributes, if it is well formed. */
  function ReadEntry(part: string): Option<Entry> {
    var part := TrimSpace(part);
    if part == "" then None
    else
      var (k, v, ok) := Cut(part, '=');
      var (k, v) := (TrimSpace(k), TrimSpace(v));
      if !ok || k == "" || v == "" then None else Some(Entry(k, v))
  }

  /** The map the first n parts build, later parts overwriting earlier ones. */
  function ReadParts(parts: seq<string>): map<string, string> {
    if parts == [] then map[]
    else
      var n := |parts| - 1;
      var m := ReadParts(parts[..n]);
      match ReadEntry(parts[n])
      case Some(e) => m[e.name := e.access]
      case None => m
  }

  /** A part that reads k=v once the space around it and around the two sides is taken off. */
  ghost predicate Reads(part: string, k: string, v: string) {
    exists a, b :: TrimSpace(part) == a + ['='] + b && '=' !in a && TrimSpace(a) == k && TrimSpace(b) == v && k != "" && v != ""
  }

  lemma ReadEntryExactly(part: string, k: string, v: string)
    ensures ReadEntry(part) == Some(Entry(k, v)) <==> Reads(part, k, v)
  {
    var t := TrimSpace(part);
    var (a, b, ok) := Cut(t, '=');
    CutRejoins(t, '=');
    if a', b' :| t == a' + ['='] + b' && '=' !in a' && TrimSpace(a') == k && TrimSpace(b') == v && k != "" && v != "" {
      CutAtSep(a', '=', b');
    }
    if ReadEntry(part) == Some(Entry(k, v)) {
      assert t == a + ['='] + b && '=' !in a;
    }
  }

  ghost predicate Readable(part: string, k: string) {
    exists v :: Reads(part, k, v)
  }

  /** Part i is the last that reads k=something, and it reads k=v. */
  ghost predicate LastToRead(parts: seq<string>, i: int, k: string, v: string) {
    0 <= i < |parts| && Reads(parts[i], k, v) && forall j | i < j < |parts| :: !Readable(parts[j], k)
  }

  ghost predicate SomeLast(parts: seq<string>, k: string, v: string) {
    exists i :: LastToRead(parts, i, k, v)
  }

  lemma LastBefore(parts: seq<string>, i: int, k: string, v: string)
    requires parts != [] && LastToRead(parts, i, k, v)
    ensures var n := |parts| - 1; if i == n then Reads(parts[n], k, v) else !Readable(parts[n], k) && LastToRead(parts[..n], i, k, v)
  {
    assert forall j | 0 <= j < |parts| - 1 :: parts[..|parts| - 1][j] == parts[j];
  }

  lemma LastStays(parts: seq<string>, i: int, k: string, v: string)
    requires parts != [] && !Readable(parts[|parts| - 1], k) && LastToRead(parts[..|parts| - 1], i, k, v)
    ensures LastToRead(parts, i, k, v)
  {
    assert forall j | 0 <= j < |parts| - 1 :: parts[..|parts| - 1][j] == parts[j];
  }

  lemma OneMorePart(parts: seq<string>, k: string, v: string)
    requires parts != []
    ensures var n := |parts| - 1; SomeLast(parts, k, v) <==> Reads(parts[n], k, v) || (!Readable(parts[n], k) && SomeLast(parts[..n], k, v))
  {
    var n := |parts| - 1;
    if SomeLast(parts, k, v) {
      var i :| LastToRead(parts, i, k, v);
      LastBefore(parts, i, k, v);
    }
    if !Readable(parts[n], k) && SomeLast(parts[..n], k, v) {
      var i :| LastToRead(parts[..n], i, k, v);
      LastStays(parts, i, k, v);
    }
    if Reads(parts[n], k, v) {
      assert LastToRead(parts, n, k, v);
    }
  }

  /** What any text means, valid or not: each name with what its last readable part says; unreadable
      parts are dropped. */
  lemma {:induction false} AnyTextParses(parts: seq<string>, k: string, v: string)
    ensures (k in ReadParts(parts) && ReadParts(parts)[k] == v) <==> SomeLast(parts, k, v)
  {
    if parts != [] {
      AnyTextParses(parts[..|parts| - 1], k, v);
      OneMorePart(parts, k, v);
      ReadEntryOf(parts[|parts| - 1], k);
      ReadEntryExactly(parts[|parts| - 1], k, v);
    }
  }

  lemma ReadEntryOf(part: string, k: string)
    ensures Readable(part, k) <==> ReadEntry(part).Some? && ReadEntry(part).value.name == k
  {
    if v :| Reads(part, k, v) {
      ReadEntryExactly(part, k, v);
    }
    if ReadEntry(part).Some? && ReadEntry(part).value.name == k {
      ReadEntryExactly(part, k, ReadEntry(part).value.access);
    }
  }

  method ParsePermissions(s: string) returns (out: map<string, string>)
    ensures out == ReadParts(Split(s, ','))
  {
    out := map[];
    var parts := Split(s, ',');
    for i := 0 to |parts|
      invariant out == ReadParts(parts[..i])
    {
      assert parts[..i + 1][..i] == parts[..i];
      var part := TrimSpace(parts[i]);
      if part == "" {
        continue;
      }
      var (k, v, ok) := Cut(part, '=');
      k, v := TrimSpace(k), TrimSpace(v);
      if !ok || k == "" || v == "" {
        continue;
      }
      out := out[k := v];
    }
    assert parts[..|parts|] == parts;
  }

  function ReadNames(parts: seq<string>): seq<string> {
    if parts == [] then []
    else
      var n := |parts| - 1;
      ReadNames(parts[..n]) + if TrimSpace(parts[n]) == "" then [] else [TrimSpace(parts[n])]
  }

  /** Item n of the result comes from part from[n], and no part that is not blank is left out. */
  ghost predicate Kept(parts: seq<string>, out: seq<string>, from: seq<nat>) {
    && |from| == |out|
    && (forall n | 0 <= n < |out| :: from[n] < |parts| && out[n] == TrimSpace(parts[from[n]]) && out[n] != "")
    && (forall n, m | 0 <= n < m < |from| :: from[n] < from[m])
    && (forall i: nat | i < |parts| && TrimSpace(parts[i]) != "" :: i in from)
  }

  lemma KeptMore(parts: seq<string>, out: seq<string>, from: seq<nat>)
    requires parts != [] && Kept(parts[..|parts| - 1], out, from)
    ensures var n := |parts| - 1; var t := TrimSpace(parts[n]);
            if t == "" then Kept(parts, out, from) else Kept(parts, out + [t], from + [n])
  {
    var n := |parts| - 1;
    assert forall i: nat | i < n :: parts[..n][i] == parts[i];
    forall i: nat | i < |parts| && TrimSpace(parts[i]) != "" ensures i in from || i == n {
      if i < n {
        assert TrimSpace(parts[..n][i]) != "";
      }
    }
  }

  /** What any list means: its parts without the space around them, blank ones left out, in order. */
  lemma {:induction false} AnyListParses(parts: seq<string>) returns (from: seq<nat>)
    ensures Kept(parts, ReadNames(parts), from)
  {
    if parts == [] {
      from := [];
    } else {
      var n := |parts| - 1;
      var before := AnyListParses(parts[..n]);
      var out, t := ReadNames(parts[..n]), TrimSpace(parts[n]);
      KeptMore(parts, out, before);
      if t == "" {
        from := before;
        assert ReadNames(parts) == out + [] == out;
      } else {
        from := before + [n];
        assert ReadNames(parts) == out + [t];
      }
    }
  }

  method ParseList(s: string) returns (out: seq<string>)
    ensures out == ReadNames(Split(s, ','))
  {
    out := [];
    var parts := Split(s, ',');
    for i := 0 to |parts|
      invariant out == ReadNames(parts[..i])
    {
      assert parts[..i + 1][..i] == parts[..i];
      var part := TrimSpace(parts[i]);
      if part != "" {
        out := out + [part];
      }
    }
    assert parts[..|parts|] == parts;
  }

  lemma AccessTrims(v: string)
    requires IsAccess(v)
    ensures TrimSpace(v) == v && v != ""
  {
    TrimNothing(v);
  }

  lemma {:induction false} ReadOfPrinted(es: seq<Entry>, n: nat)
    requires EntriesOk(es) && n <= |es|
    ensures Denotes(es[..n], ReadParts(PrintEntries(es)[..n]))
  {
    if n > 0 {
      var k := n - 1;
      ReadOfPrinted(es, k);
      var e := es[k];
      EntryShape(e);
      NameHasNoSpace(e.name);
      AccessTrims(e.access);
      assert PrintEntries(es)[..n][..k] == PrintEntries(es)[..k];
      var m, m' := ReadParts(PrintEntries(es)[..k]), ReadParts(PrintEntries(es)[..n]);
      assert m' == m[e.name := e.access];
      DenotesOneMore(es, k, m);
    }
  }

  lemma LastStaysLast(es: seq<Entry>, k: nat, i: int)
    requires k < |es| && LastOfName(es[..k], i) && es[i].name != es[k].name
    ensures LastOfName(es[..k + 1], i)
  {
    var before, next := es[..k], es[..k + 1];
    forall j | i < j < |next| ensures next[j].name != next[i].name {
      assert j < k ==> before[j] == next[j];
    }
  }

  lemma DenotesOneMore(es: seq<Entry>, k: nat, m: map<string, string>)
    requires k < |es| && Denotes(es[..k], m)
    ensures Denotes(es[..k + 1], m[es[k].name := es[k].access])
  {
    var e, before, next := es[k], es[..k], es[..k + 1];
    var m' := m[e.name := e.access];
    forall i | 0 <= i < |next| ensures next[i].name in m' {
      assert i < k ==> before[i] == next[i];
    }
    forall name | name in m' ensures exists i :: LastOfName(next, i) && next[i] == Entry(name, m'[name]) {
      if name == e.name {
        assert LastOfName(next, k) && next[k] == Entry(name, m'[name]);
      } else {
        var i :| LastOfName(before, i) && before[i] == Entry(name, m[name]);
        LastStaysLast(es, k, i);
        assert next[i] == before[i];
      }
    }
  }

  lemma DenotesUnique(es: seq<Entry>, m: map<string, string>, m': map<string, string>)
    requires Denotes(es, m) && Denotes(es, m')
    ensures m == m'
  {
    forall k | k in m ensures k in m' && m[k] == m'[k] {
      var i :| LastOfName(es, i) && es[i] == Entry(k, m[k]);
      var i' :| LastOfName(es, i') && es[i'] == Entry(k, m'[k]);
    }
    forall k | k in m' ensures k in m {
      var i :| LastOfName(es, i) && es[i] == Entry(k, m'[k]);
    }
  }

  /** An accepted string parses to exactly the map its grammar denotes: non-empty, last entry wins,
      and only read, write or admin as values. */
  lemma AcceptedParsesToMeaning(es: seq<Entry>)
    requires EntriesOk(es)
    ensures var m := ReadParts(Split(Print(es), ','));
            && Denotes(es, m) && (forall m' | Denotes(es, m') :: m' == m)
            && m != map[] && forall k | k in m :: IsPermissionName(k) && IsAccess(m[k])
  {
    SplitOfPrint(es);
    ReadOfPrinted(es, |es|);
    assert es[..|es|] == es && PrintEntries(es)[..|es|] == PrintEntries(es);
    var m := ReadParts(Split(Print(es), ','));
    assert es[0].name in m;
    forall m' | Denotes(es, m') ensures m' == m {
      DenotesUnique(es, m, m');
    }
    forall k | k in m ensures IsPermissionName(k) && IsAccess(m[k]) {
      var i :| LastOfName(es, i) && es[i] == Entry(k, m[k]);
      assert EntryOk(es[i]);
    }
  }

  /** es lists the entries of m, each once. */
  ghost predicate Lists(es: seq<Entry>, m: map<string, string>) {
    && |es| == |m|
    && (forall i | 0 <= i < |es| :: es[i].name in m && es[i].access == m[es[i].name])
    && (forall i, j | 0 <= i < j < |es| :: es[i].name != es[j].name)
    && forall k | k in m :: exists i :: 0 <= i < |es| && es[i].name == k
  }

  /** Printing a non-empty valid map, in any order, and parsing it back is the identity. */
  lemma PrintThenParse(m: map<string, string>, es: seq<Entry>)
    requires m != map[] && Lists(es, m) && forall k | k in m :: IsPermissionName(k) && IsAccess(m[k])
    ensures IsPermissions(Print(es)) && ReadParts(Split(Print(es), ',')) == m
  {
    assert es != [] by {
      var k :| k in m;
    }
    assert EntriesOk(es);
    PermissionsPattern(Print(es));
    AcceptedParsesToMeaning(es);
    forall k | k in m ensures exists i :: LastOfName(es, i) && es[i] == Entry(k, m[k]) {
      var i :| 0 <= i < |es| && es[i].name == k;
      assert LastOfName(es, i);
    }
    assert Denotes(es, m);
  }

  lemma {:induction false} ReadNamesKeeps(parts: seq<string>)
    requires forall i | 0 <= i < |parts| :: IsRepoName(parts[i])
    ensures ReadNames(parts) == parts
  {
    if parts != [] {
      var n := |parts| - 1;
      ReadNamesKeeps(parts[..n]);
      var s := parts[n];
      var p := c => 'a' <= c <= 'z' || 'A' <= c <= 'Z' || '0' <= c <= '9' || c == '.' || c == '_' || c == '-';
      assert All(s, p) && p(s[0]) && p(s[|s| - 1]);
      TrimNothing(s);
      assert parts == parts[..n] + [s];
    }
  }

  /** An accepted repository list rejoins to itself. */
  lemma RepositoriesRejoin(s: string)
    requires IsRepositories(s)
    ensures Join(ReadNames(Split(s, ',')), ',') == s
  {
    ReadNamesKeeps(Split(s, ','));
    JoinOfSplit(s, ',');
  }

  // ----- Fetch -----

  datatype FetchError = BadRef | NoPermissions | ExchangeFailed | UnknownField

  /** What the exchange is asked for; None means all of the installation's repositories. */
  datatype TokenRequest = TokenRequest(installation: string, permissions: map<string, string>, repositories: Option<seq<string>>)

  datatype Token = Token(secret: string, expiresAt: int)

  datatype Minted = Minted(fields: map<string, string>, expiresAt: int)

  /** What Fetch sends to the token endpoint, if it gets that far. */
  function Asks(ref: string, params: map<string, string>): Result<TokenRequest, FetchError> {
    if !IsInstallationRef(ref) then Err(BadRef)
    else
      var perms := ReadParts(Split(Value(params, "permissions"), ','));
      var repos := ReadNames(Split(Value(params, "repositories"), ','));
      if perms == map[] then Err(NoPermissions)
      else Ok(TokenRequest(ref[14..], perms, if repos == [] then None else Some(repos)))
  }

  /** A missing map key reads as the empty string. */
  function Value(params: map<string, string>, name: string): string {
    if name in params then params[name] else ""
  }

  /** The whole outcome: every field must map to the one output key, or nothing is returned. */
  function Outcome(ref: string, fields: map<string, string>, params: map<string, string>, exchange: TokenRequest -> Option<Token>)
    : Result<Minted, FetchError>
  {
    match Asks(ref, params)
    case Err(e) => Err(e)
    case Ok(request) =>
      match exchange(request)
      case None => Err(ExchangeFailed)
      case Some(token) =>
        if forall f | f in fields :: fields[f] == "token"
        then Ok(Minted(map f | f in fields :: token.secret, token.expiresAt))
        else Err(UnknownField)
  }

  /** The field loop of Fetch, in whatever order the map yields. */
  method MapFields(fields: map<string, string>, secret: string) returns (r: Option<map<string, string>>)
    ensures r.Some? <==> forall f | f in fields :: fields[f] == "token"
    ensures r.Some? ==> r.value == map f | f in fields :: secret
  {
    var out: map<string, string> := map[];
    var todo := fields.Keys;
    while todo != {}
      invariant todo <= fields.Keys && out.Keys == fields.Keys - todo
      invariant forall f | f in out :: fields[f] == "token" && out[f] == secret
      decreases |todo|
    {
      var f :| f in todo;
      if fields[f] != "token" {
        return None;
      }
      out := out[f := secret];
      todo := todo - {f};
    }
    return Some(out);
  }

  /** exchange stands for the token endpoint: any complete answer, or None for every way it can
      fail (transport, status, undecodable or incomplete body). */
  method Fetch(ref: string, fields: map<string, string>, params: map<string, string>, exchange: TokenRequest -> Option<Token>)
    returns (r: Result<Minted, FetchError>)
    ensures r == Outcome(ref, fields, params, exchange)
    ensures r == Err(BadRef) <==> !IsInstallationRef(ref)
    ensures r == Err(NoPermissions) <==> IsInstallationRef(ref) && ReadParts(Split(Value(params, "permissions"), ',')) == map[]
    ensures r.Ok? ==> forall f | f in fields :: fields[f] == "token" && f in r.value.fields
    ensures r.Ok? ==> exists request :: (
              && exchange(request).Some? && exchange(request).value.expiresAt == r.value.expiresAt
              && request.installation == ref[14..] && request.permissions == ReadParts(Split(Value(params, "permissions"), ','))
              && forall f | f in r.value.fields :: f in fields && r.value.fields[f] == exchange(request).value.secret)
  {
    if !IsInstallationRef(ref) {
      return Err(BadRef);
    }
    var perms := ParsePermissions(Value(params, "permissions"));
    if |perms| == 0 {
      return Err(NoPermissions);
    }
    var repos := ParseList(Value(params, "repositories"));
    var request := TokenRequest(ref[14..], perms, if |repos| > 0 then Some(repos) else None);
    var token := exchange(request);
    if token.None? {
      return Err(ExchangeFailed);
    }
    var out := MapFields(fields, token.value.secret);
    if out.None? {
      return Err(UnknownField);
    }
    return Ok(Minted(out.value, token.value.expiresAt));
  }

  /** The permissions asked for are what the text denotes, read in any way the grammar allows. */
  lemma PermissionsAsked(text: string)
    requires IsPermissions(text)
    ensures var m := ReadParts(Split(text, ',')); m != map[] && forall es | EntriesOk(es) && Print(es) == text :: Denotes(es, m)
  {
    PermissionsPattern(text);
    var es :| EntriesOk(es) && text == Print(es);
    AcceptedParsesToMeaning(es);
    forall es | EntriesOk(es) && Print(es) == text ensures Denotes(es, ReadParts(Split(text, ','))) {
      AcceptedParsesToMeaning(es);
    }
  }

  /** The repositories asked for are the list as written; none for an empty one. */
  lemma RepositoriesAsked(text: string)
    requires text == "" || IsRepositories(text)
    ensures var l := ReadNames(Split(text, ',')); if text == "" then l == [] else l != [] && Join(l, ',') == text
  {
    if text != "" {
      RepositoriesRejoin(text);
    } else {
      assert [""][..0] == [];
      assert ReadNames(Split(text, ',')) == [];
    }
  }

  lemma OutcomeOfFields(ref: string, fields: map<string, string>, params: map<string, string>, exchange: TokenRequest -> Option<Token>)
    requires Asks(ref, params).Ok? && forall f | f in fields :: fields[f] == "token"
    ensures var asks, r := Asks(ref, params).value, Outcome(ref, fields, params, exchange);
            if exchange(asks).None? then r == Err(ExchangeFailed)
            else r.Ok? && r.value.expiresAt == exchange(asks).value.expiresAt && r.value.fields.Keys == fields.Keys
                 && forall f | f in fields :: r.value.fields[f] == exchange(asks).value.secret
  {
  }

  /** For a scope the policy accepted, Fetch asks for exactly the permissions and repositories the
      scope's text denotes and fails only if the exchange does: the bad-ref, no-permissions and
      unknown-field refusals are unreachable. A success carries the secret in every field, and the
      endpoint's expiry. */
  lemma FetchOfValidatedScope(s: Scope, exchange: TokenRequest -> Option<Token>)
    requires ScopeOk(s) && s.provider == "github-app"
    ensures var asks := Asks(s.ref, s.params);
            && asks.Ok? && "installations/" + asks.value.installation == s.ref
            && (forall es | EntriesOk(es) && Print(es) == Param(s, "permissions") :: Denotes(es, asks.value.permissions))
            && (if Param(s, "repositories") == "" then asks.value.repositories == None
                else asks.value.repositories.Some? && Join(asks.value.repositories.value, ',') == Param(s, "repositories"))
    ensures var asks, r := Asks(s.ref, s.params).value, Outcome(s.ref, s.fields, s.params, exchange);
            if exchange(asks).None? then r == Err(ExchangeFailed)
            else r.Ok? && r.value.expiresAt == exchange(asks).value.expiresAt && r.value.fields.Keys == s.fields.Keys
                 && forall f | f in s.fields :: r.value.fields[f] == exchange(asks).value.secret
  {
    PermissionsAsked(Param(s, "permissions"));
    RepositoriesAsked(Param(s, "repositories"));
    assert s.ref == s.ref[..14] + s.ref[14..];
    OutcomeOfFields(s.ref, s.fields, s.params, exchange);
  }
}
