/**
 * Collection assembly: for every route, the request item (headers, auth
 * block, URL, query, body, response example, scripted events) and its
 * place in the folder tree chosen by the folder policy its URI matches.
 *
 * The configuration is an explicit value. What the docblock tags of a
 * route say arrives already parsed (`Tags`); the request class, when one
 * is found, arrives as the outcome of reading its rules; invoking the
 * controller action arrives as its outcome.
 */
module PostmanJsonBuilder {
  import opened Wrappers
  import opened Values
  import opened Php
  import opened Document
  import opened FolderTree
  import opened Sequences
  import RE = ResponseExtractor

  // =====================================================================
  // Configuration and inputs
  // =====================================================================

  /** One entry of the `folders` configuration. A member that is absent or
      null is None; `others` says whether the array has further members
      (or null-valued ones), which make it non-empty all the same. */
  datatype Policy = Policy(
    level: Option<int>,
    isGlobal: Option<bool>,
    headers: Option<seq<(string, string)>>,
    auth: Option<Object>,
    prerequest: Option<string>,
    test: Option<string>,
    others: bool)

  /** A policy array is truthy when it is not empty. */
  predicate PolicyTruthy(p: Policy) {
    p.level.Some? || p.isGlobal.Some? || p.headers.Some? || p.auth.Some?
    || p.prerequest.Some? || p.test.Some? || p.others
  }

  datatype Config = Config(
    folders: seq<(string, Policy)>,
    defaultParams: Object,
    contentType: string,
    baseUrlKey: string,
    collectionName: string,
    collectionSchema: string)

  /** What the docblock tags of a route yield: `@header`, `@query`, the
      decoded `@auth` array, `@description`, the decoded `@body` (None when
      absent, invalid or null) and the `@response` text. */
  datatype Tags = Tags(
    headers: seq<Header>,
    query: seq<QueryParam>,
    auth: Option<Object>,
    description: Option<string>,
    body: Option<Json>,
    response: Option<string>)

  /** Reading a request class's rules: an exception, or the rules found. */
  datatype RulesOutcome = Raised(message: string) | Rules(rules: seq<(Key, RuleSet)>)

  /** An existing request class, by name, with the outcome of reading its rules. */
  datatype RequestClass = RequestClass(name: string, outcome: RulesOutcome)

  datatype Route = Route(
    uri: string,
    verb: string,
    doc: string,
    routeName: Option<string>,
    tags: Tags,
    requestClass: Option<RequestClass>,
    invocation: RE.Invocation)

  // =====================================================================
  // Auth blocks
  // =====================================================================

  /** A value that can be used as an array offset. */
  predicate IsScalar(j: Json) {
    j.JNull? || j.JBool? || j.JInt? || j.JString?
  }

  /** The `type` member of an auth array; a missing one reads as null. */
  function TypeOf(a: Object): Json {
    Lookup(a, StrKey("type")).GetOr(JNull)
  }

  /** PHP refuses an array or object as an offset; every other type member
      names a key. */
  predicate AuthUsable(a: Option<Object>) {
    a.None? || IsScalar(TypeOf(a.value))
  }

  /** The key a scalar offset designates: null is "", a boolean 0 or 1. */
  function Offset(j: Json): (k: Key)
    requires IsScalar(j)
    ensures j.JString? ==> k == StrKey(j.s)
    ensures j.JInt? ==> k == IntKey(j.i)
  {
    match j
    case JNull => StrKey("")
    case JBool(b) => IntKey(if b then 1 else 0)
    case JInt(i) => IntKey(i)
    case JString(s) => StrKey(s)
  }

  /** formatAuth: the `type` member, then the member the type names, copied
      from the configuration or `[]` when it is missing or null. */
  function FormatAuth(a: Object): (r: Object)
    requires IsScalar(TypeOf(a))
    ensures Offset(TypeOf(a)) == StrKey("type") ==> r == [(StrKey("type"), TypeOf(a))]
    ensures Offset(TypeOf(a)) != StrKey("type") ==>
      |r| == 2 && r[0] == (StrKey("type"), TypeOf(a)) && r[1].0 == Offset(TypeOf(a))
      && r[1].1 == (if Isset(a, Offset(TypeOf(a))) then Lookup(a, Offset(TypeOf(a))).value else JArray([]))
  {
    var t := TypeOf(a);
    var k := Offset(t);
    var credentials := if Isset(a, k) then Lookup(a, k).value else JArray([]);
    if k == StrKey("type") then
      // the second write replaces the first: `$a['type']` is t itself
      assert Lookup(a, k) == Some(t) by { assert t.JString?; }
      [(StrKey("type"), credentials)]
    else
      [(StrKey("type"), t), (k, credentials)]
  }

  /** The explicit "no auth" block. */
  const NoAuthBlock: Object := [(StrKey("type"), JString("noauth"))]

  // =====================================================================
  // Folder policy selection
  // =====================================================================

  function Keys(folders: seq<(string, Policy)>): (ks: seq<string>)
    ensures |ks| == |folders|
    ensures forall i :: 0 <= i < |folders| ==> ks[i] == folders[i].0
  {
    seq(|folders|, i requires 0 <= i < |folders| => folders[i].0)
  }

  /** Whether a policy key applies to a URI. */
  predicate Applies(uri: string, key: string) {
    key != "default" && StartsWith(uri, key)
  }

  /** detectFolderKey: the first key, in configuration order, that is not
      `default` and is a prefix of the URI. */
  function DetectFolderKey(uri: string, keys: seq<string>): (r: Option<string>)
    ensures r.Some? ==> exists i :: (0 <= i < |keys| && keys[i] == r.value && Applies(uri, keys[i])
      && forall k :: 0 <= k < i ==> !Applies(uri, keys[k]))
    ensures r.None? <==> forall k :: 0 <= k < |keys| ==> !Applies(uri, keys[k])
    decreases |keys|
  {
    if keys == [] then None
    else if Applies(uri, keys[0]) then Some(keys[0])
    else
      var r := DetectFolderKey(uri, keys[1..]);
      assert forall k :: 0 < k < |keys| ==> keys[k] == keys[1..][k - 1];
      if r.Some? then
        var i :| 0 <= i < |keys[1..]| && keys[1..][i] == r.value && Applies(uri, keys[1..][i])
          && forall k :: 0 <= k < i ==> !Applies(uri, keys[1..][k]);
        assert keys[i + 1] == r.value;
        r
      else r
  }

  /** `$folders[$key]`: the policy under a key. */
  function PolicyAt(folders: seq<(string, Policy)>, key: string): (r: Option<Policy>)
    ensures r.Some? <==> key in Keys(folders)
    ensures r.Some? ==> exists i :: 0 <= i < |folders| && folders[i] == (key, r.value)
    decreases |folders|
  {
    if folders == [] then None
    else if folders[0].0 == key then Some(folders[0].1)
    else
      var r := PolicyAt(folders[1..], key);
      assert Keys(folders) == [folders[0].0] + Keys(folders[1..]);
      assert forall i :: 0 < i < |folders| ==> folders[i] == folders[1..][i - 1];
      r
  }

  /** getFolderConfig: the policy of the detected key when that key is truthy,
      otherwise the `default` policy, if any. */
  function GetFolderConfig(uri: string, folders: seq<(string, Policy)>): Option<Policy> {
    var key := DetectFolderKey(uri, Keys(folders));
    if key.Some? && Truthy(key.value) && PolicyAt(folders, key.value).Some? then
      PolicyAt(folders, key.value)
    else
      PolicyAt(folders, "default")
  }

  /** Policy selection: a URI that a truthy key applies to gets the policy of
      the first such key (never `default`); otherwise the `default` policy. */
  lemma PolicySelection(uri: string, folders: seq<(string, Policy)>)
    ensures DetectFolderKey(uri, Keys(folders)).Some? && Truthy(DetectFolderKey(uri, Keys(folders)).value) ==>
      GetFolderConfig(uri, folders).Some?
      && GetFolderConfig(uri, folders) == PolicyAt(folders, DetectFolderKey(uri, Keys(folders)).value)
    ensures (forall k :: 0 <= k < |folders| ==> !Applies(uri, folders[k].0)) ==>
      GetFolderConfig(uri, folders) == PolicyAt(folders, "default")
  {
    var key := DetectFolderKey(uri, Keys(folders));
    if key.Some? {
      assert key.value in Keys(folders);
    }
    if forall k :: 0 <= k < |folders| ==> !Applies(uri, folders[k].0) {
      assert forall k :: 0 <= k < |Keys(folders)| ==> !Applies(uri, Keys(folders)[k]);
    }
  }

  /** A falsy key ("" or "0") that applies first hides every later key: the
      route falls back to the `default` policy. */
  lemma EmptyKeyFallsBackToDefault(uri: string, p: Policy, q: Policy, d: Policy)
    ensures GetFolderConfig(uri, [("", p), ("api", q), ("default", d)]) == Some(d)
  {
    var folders := [("", p), ("api", q), ("default", d)];
    assert Keys(folders) == ["", "api", "default"];
    assert Applies(uri, "");
    assert DetectFolderKey(uri, Keys(folders)) == Some("");
  }

  // =====================================================================
  // Headers and auth
  // =====================================================================

  predicate IsGlobal(policy: Option<Policy>) {
    policy.Some? && policy.value.isGlobal.GetOr(false)
  }

  /** formatHeaders: a `name => value` map as `{key, value}` entries, in order
      (trimming with an empty character list changes nothing). */
  function FormatHeaders(hs: seq<(string, string)>): (r: seq<Header>)
    ensures |r| == |hs|
    ensures forall i :: 0 <= i < |hs| ==> r[i] == Header(hs[i].0, hs[i].1)
  {
    seq(|hs|, i requires 0 <= i < |hs| => Header(hs[i].0, hs[i].1))
  }

  /** buildHeaders: the route's headers, then the policy's when it is global. */
  function BuildHeaders(routeHeaders: seq<Header>, policy: Option<Policy>): (r: seq<Header>)
    ensures |r| >= |routeHeaders| && r[..|routeHeaders|] == routeHeaders
    ensures !IsGlobal(policy) ==> r == routeHeaders
    ensures IsGlobal(policy) ==>
      var ph := policy.value.headers.GetOr([]);
      |r| == |routeHeaders| + |ph|
      && forall i :: 0 <= i < |ph| ==> r[|routeHeaders| + i] == Header(ph[i].0, ph[i].1)
  {
    var global := if IsGlobal(policy) then policy.value.headers.GetOr([]) else [];
    routeHeaders + FormatHeaders(global)
  }

  /** buildAuth: the route's auth when it has one, else the policy's when it
      is global, else none. */
  function BuildAuth(routeAuth: Option<Object>, policy: Option<Policy>): (r: Option<Object>)
    ensures routeAuth.Some? ==> r == routeAuth
    ensures routeAuth.None? && IsGlobal(policy) ==> r == policy.value.auth
    ensures routeAuth.None? && !IsGlobal(policy) ==> r.None?
  {
    if routeAuth.Some? then routeAuth
    else if IsGlobal(policy) then policy.value.auth
    else None
  }

  /** extractNoAuth: whether the docblock holds `@no-auth`. */
  predicate ExtractNoAuth(doc: string) {
    Contains(doc, "@no-auth")
  }

  /** The marker counts wherever it occurs in the docblock. */
  lemma NoAuthMarkerAnywhere(before: string, after: string)
    ensures ExtractNoAuth(before + "@no-auth" + after)
  {
    var doc := before + "@no-auth" + after;
    assert doc[|before|..|before| + |"@no-auth"|] == "@no-auth";
    assert OccursAt(doc, "@no-auth", |before|);
    ContainsAt(doc, "@no-auth");
  }

  /** The headers `@no-auth` removes (compared exactly). */
  predicate Credential(h: Header) {
    h.key == "Authorization" || h.key == "X-Auth-Token"
  }

  /** The header filter of `@no-auth` as written: array_filter keeps each
      remaining header under its original index. */
  function NoAuthHeadersAsWritten(hs: seq<Header>): seq<(nat, Header)>
    decreases |hs|
  {
    if hs == [] then []
    else
      var n := |hs| - 1;
      NoAuthHeadersAsWritten(hs[..n]) + (if Credential(hs[n]) then [] else [(n, hs[n])])
  }

  /** A PHP array is a JSON list when its keys are 0, 1, 2, ... */
  predicate IsList(entries: seq<(nat, Header)>) {
    forall i :: 0 <= i < |entries| ==> entries[i].0 == i
  }

  /** With a credential header first, the filtered headers are no longer a
      list: a JSON encoder writes them as an object keyed "1". */
  lemma NoAuthHeadersAsWrittenLeaveHoles()
    ensures var hs := [Header("Authorization", "Bearer {{token}}"), Header("Accept", "application/json")];
      NoAuthHeadersAsWritten(hs) == [(1, Header("Accept", "application/json"))]
      && !IsList(NoAuthHeadersAsWritten(hs))
  {
    var hs := [Header("Authorization", "Bearer {{token}}"), Header("Accept", "application/json")];
    assert hs[..1][..0] == [];
    assert NoAuthHeadersAsWritten(hs[..1]) == [];
    assert NoAuthHeadersAsWritten(hs)[0].0 == 1;
  }

  /** The `@no-auth` header filter as intended: the remaining headers, in their
      order, as a list. */
  function NoAuthHeaders(hs: seq<Header>): (r: seq<Header>)
    ensures |r| <= |hs|
    ensures forall h :: h in r <==> h in hs && !Credential(h)
    decreases |hs|
  {
    if hs == [] then []
    else
      var n := |hs| - 1;
      assert hs == hs[..n] + [hs[n]];
      NoAuthHeaders(hs[..n]) + (if Credential(hs[n]) then [] else [hs[n]])
  }

  function Renumbered(entries: seq<(nat, Header)>): (r: seq<Header>)
    ensures |r| == |entries|
    ensures forall i :: 0 <= i < |entries| ==> r[i] == entries[i].1
  {
    seq(|entries|, i requires 0 <= i < |entries| => entries[i].1)
  }

  /** The intended filter is the written one renumbered (array_values). */
  lemma {:induction false} NoAuthHeadersRenumbered(hs: seq<Header>)
    ensures NoAuthHeaders(hs) == Renumbered(NoAuthHeadersAsWritten(hs))
    decreases |hs|
  {
    if hs != [] {
      var n := |hs| - 1;
      NoAuthHeadersRenumbered(hs[..n]);
    }
  }

  /** The filter keeps the order of the remaining headers: it maps a
      concatenation to the concatenation of its parts. */
  lemma {:induction false} NoAuthHeadersOfConcat(a: seq<Header>, b: seq<Header>)
    ensures NoAuthHeaders(a + b) == NoAuthHeaders(a) + NoAuthHeaders(b)
    decreases |b|
  {
    if b == [] {
      assert a + b == a;
      assert NoAuthHeaders(a) + NoAuthHeaders(b) == NoAuthHeaders(a) + [];
    } else {
      var n := |b| - 1;
      var last := if Credential(b[n]) then [] else [b[n]];
      assert (a + b)[..|a + b| - 1] == a + b[..n];
      assert (a + b)[|a + b| - 1] == b[n];
      NoAuthHeadersLast(a + b);
      NoAuthHeadersLast(b);
      calc {
        NoAuthHeaders(a + b);
        NoAuthHeaders(a + b[..n]) + last;
        { NoAuthHeadersOfConcat(a, b[..n]); }
        NoAuthHeaders(a) + NoAuthHeaders(b[..n]) + last;
        { Associative(NoAuthHeaders(a), NoAuthHeaders(b[..n]), last); }
        NoAuthHeaders(a) + (NoAuthHeaders(b[..n]) + last);
        NoAuthHeaders(a) + NoAuthHeaders(b);
      }
    }
  }

  /** One step of the filter: the last header is judged on its own. */
  lemma NoAuthHeadersLast(hs: seq<Header>)
    requires hs != []
    ensures NoAuthHeaders(hs) == NoAuthHeaders(hs[..|hs| - 1]) + (if Credential(hs[|hs| - 1]) then [] else [hs[|hs| - 1]])
  {
  }

  /** Headers without credentials pass unchanged. */
  lemma {:induction false} NoAuthHeadersKeepOthers(hs: seq<Header>)
    requires forall i :: 0 <= i < |hs| ==> !Credential(hs[i])
    ensures NoAuthHeaders(hs) == hs
    decreases |hs|
  {
    if hs != [] {
      var n := |hs| - 1;
      assert hs == hs[..n] + [hs[n]];
      NoAuthHeadersKeepOthers(hs[..n]);
    }
  }

  // =====================================================================
  // Query parameters and the URL
  // =====================================================================

  /** A query value that starts with `:` becomes `{name}`, every leading colon
      removed; any other value stays as it is. */
  function RewriteValue(v: string): (r: string)
    ensures !StartsWith(v, ":") ==> r == v
    ensures StartsWith(v, ":") ==>
      2 <= |r| <= |v| + 2 && r[0] == '{' && r[|r| - 1] == '}'
      && (|r| > 2 ==> r[1] != ':')
      && (forall i :: 0 <= i < |v| + 2 - |r| ==> v[i] == ':')
      && v[|v| + 2 - |r|..] == r[1..|r| - 1]
  {
    if StartsWith(v, ":") then
      var inner := LtrimChar(v, ':');
      var r := "{" + inner + "}";
      assert r[1..|r| - 1] == inner;
      r
    else v
  }

  /** A rewritten value no longer starts with the colon, so rewriting twice
      is rewriting once. */
  lemma RewriteIdempotent(v: string)
    ensures !StartsWith(RewriteValue(v), ":")
    ensures RewriteValue(RewriteValue(v)) == RewriteValue(v)
  {
    var r := RewriteValue(v);
    ColonPrefix(v);
    ColonPrefix(r);
  }

  /** Starting with ":" is having ':' as first character. */
  lemma ColonPrefix(s: string)
    ensures StartsWith(s, ":") <==> s != [] && s[0] == ':'
  {
    if s != [] {
      assert s[..1] == [s[0]];
    }
  }

  function RewriteQuery(q: seq<QueryParam>): (r: seq<QueryParam>)
    ensures |r| == |q|
    ensures forall i :: 0 <= i < |q| ==> r[i].key == q[i].key && r[i].value == RewriteValue(q[i].value)
  {
    seq(|q|, i requires 0 <= i < |q| => QueryParam(q[i].key, RewriteValue(q[i].value)))
  }

  /** buildQueryParams: each parameter rewritten in place. */
  method BuildQueryParams(query: seq<QueryParam>) returns (params: seq<QueryParam>)
    ensures params == RewriteQuery(query)
  {
    params := query;
    var i := 0;
    while i < |params|
      invariant 0 <= i <= |params| == |query|
      invariant forall k :: 0 <= k < i ==> params[k] == QueryParam(query[k].key, RewriteValue(query[k].value))
      invariant forall k :: i <= k < |params| ==> params[k] == query[k]
    {
      var p := params[i];
      if StartsWith(p.value, ":") {
        var rewritten := "{" + LtrimChar(p.value, ':') + "}";
        assert rewritten == RewriteValue(query[i].value);
        params := params[i := QueryParam(p.key, rewritten)];
      }
      i := i + 1;
    }
  }

  /** The characters of `\w`. */
  predicate WordChar(c: char) {
    'a' <= c <= 'z' || 'A' <= c <= 'Z' || '0' <= c <= '9' || c == '_'
  }

  /** The length of the run of word characters s starts with. */
  function WordRun(s: string): (n: nat)
    ensures n <= |s|
    ensures forall i :: 0 <= i < n ==> WordChar(s[i])
    ensures n < |s| ==> !WordChar(s[n])
    decreases |s|
  {
    if s != [] && WordChar(s[0]) then 1 + WordRun(s[1..]) else 0
  }

  /** Whether s starts with `{name}`, name a non-empty run of word characters. */
  predicate PlaceholderAhead(s: string) {
    |s| >= 3 && s[0] == '{' && 0 < WordRun(s[1..]) && 1 + WordRun(s[1..]) < |s| && s[1 + WordRun(s[1..])] == '}'
  }

  /** convertBracesToColons: every `{name}` replaced by `:name`, scanning left
      to right. */
  function ConvertBraces(s: string): string
    decreases |s|
  {
    if s == [] then []
    else if PlaceholderAhead(s) then
      var n := WordRun(s[1..]);
      [':'] + s[1..1 + n] + ConvertBraces(s[2 + n..])
    else
      [s[0]] + ConvertBraces(s[1..])
  }

  /** A run of word characters stops at a slash. */
  lemma {:induction false} WordRunStopsAtSlash(a: string, b: string)
    ensures WordRun(a + "/" + b) == WordRun(a)
    decreases |a|
  {
    if a != [] && WordChar(a[0]) {
      assert (a + "/" + b)[1..] == a[1..] + "/" + b;
      WordRunStopsAtSlash(a[1..], b);
    }
  }

  /** No placeholder spans a slash: converting a path converts each of its
      `/`-separated parts. */
  lemma {:induction false} ConvertBracesAtSlash(a: string, b: string)
    ensures ConvertBraces(a + "/" + b) == ConvertBraces(a) + "/" + ConvertBraces(b)
    decreases |a|, 1
  {
    var s := a + "/" + b;
    if a == [] {
      assert s == "/" + b;
      assert !PlaceholderAhead(s);
      assert s[1..] == b;
    } else if PlaceholderAhead(a) {
      PlaceholderBeforeSlash(a, b);
    } else {
      PlainBeforeSlash(a, b);
    }
  }

  lemma {:induction false} PlaceholderBeforeSlash(a: string, b: string)
    requires PlaceholderAhead(a)
    ensures ConvertBraces(a + "/" + b) == ConvertBraces(a) + "/" + ConvertBraces(b)
    decreases |a|, 0
  {
    var s := a + "/" + b;
    WordRunStopsAtSlash(a[1..], b);
    var n := WordRun(a[1..]);
    assert s[1..] == a[1..] + "/" + b;
    assert PlaceholderAhead(s);
    var x, y := [':'] + a[1..1 + n], ConvertBraces(a[2 + n..]);
    calc {
      ConvertBraces(s);
      [':'] + s[1..1 + n] + ConvertBraces(s[2 + n..]);
      { SliceAppend(a + "/", b, 1, 1 + n); SliceAppend(a, "/", 1, 1 + n);
        DropAppend(a + "/", b, 2 + n); DropAppend(a, "/", 2 + n);
        ConvertBracesAtSlash(a[2 + n..], b); }
      x + (y + "/" + ConvertBraces(b));
      { Associative(x, y + "/", ConvertBraces(b)); Associative(x, y, "/"); }
      x + y + "/" + ConvertBraces(b);
    }
  }

  lemma {:induction false} PlainBeforeSlash(a: string, b: string)
    requires a != [] && !PlaceholderAhead(a)
    ensures ConvertBraces(a + "/" + b) == ConvertBraces(a) + "/" + ConvertBraces(b)
    decreases |a|, 0
  {
    var s := a + "/" + b;
    assert s[0] == a[0];
    assert s[1..] == a[1..] + "/" + b;
    WordRunStopsAtSlash(a[1..], b);
    var n := WordRun(a[1..]);
    assert !PlaceholderAhead(s) by {
      if 1 + n == |a| {
        assert s[1 + n] == '/';
      } else if 1 + n < |a| {
        assert s[1 + n] == a[1 + n];
      }
    }
    var x, y := [a[0]], ConvertBraces(a[1..]);
    calc {
      ConvertBraces(s);
      [s[0]] + ConvertBraces(s[1..]);
      { ConvertBracesAtSlash(a[1..], b); }
      x + (y + "/" + ConvertBraces(b));
      { Associative(x, y + "/", ConvertBraces(b)); Associative(x, y, "/"); }
      x + y + "/" + ConvertBraces(b);
    }
  }


  /** convertPathSegments: each segment converted. */
  function ConvertPathSegments(segments: seq<string>): (r: seq<string>)
    ensures |r| == |segments|
    ensures forall i :: 0 <= i < |segments| ==> r[i] == ConvertBraces(segments[i])
  {
    seq(|segments|, i requires 0 <= i < |segments| => ConvertBraces(segments[i]))
  }

  lemma ConvertPathSegmentsCons(head: string, rest: seq<string>)
    ensures ConvertPathSegments([head] + rest) == [ConvertBraces(head)] + ConvertPathSegments(rest)
  {
    var l := ConvertPathSegments([head] + rest);
    var r := [ConvertBraces(head)] + ConvertPathSegments(rest);
    assert |l| == |r|;
    forall k | 0 <= k < |l| ensures l[k] == r[k] {
      if k > 0 {
        assert ([head] + rest)[k] == rest[k - 1];
      }
    }
  }

  /** The path segments, put back together, are the converted URI. */
  lemma {:induction false} PathSegmentsJoin(uri: string)
    ensures Join('/', ConvertPathSegments(Explode('/', uri))) == ConvertBraces(uri)
    decreases |uri|
  {
    if '/' in uri {
      var i := IndexOf(uri, '/');
      var head, rest := uri[..i], uri[i + 1..];
      var tail := ConvertPathSegments(Explode('/', rest));
      PathSegmentsJoin(rest);
      calc {
        Join('/', ConvertPathSegments(Explode('/', uri)));
        { assert Explode('/', uri) == [head] + Explode('/', rest); }
        Join('/', ConvertPathSegments([head] + Explode('/', rest)));
        { ConvertPathSegmentsCons(head, Explode('/', rest)); }
        Join('/', [ConvertBraces(head)] + tail);
        { JoinCons('/', ConvertBraces(head), tail); }
        ConvertBraces(head) + "/" + Join('/', tail);
        ConvertBraces(head) + "/" + ConvertBraces(rest);
        { ConvertBracesAtSlash(head, rest); }
        ConvertBraces(head + "/" + rest);
        { assert uri == head + "/" + rest; }
        ConvertBraces(uri);
      }
    } else {
      assert Explode('/', uri) == [uri];
      assert ConvertPathSegments([uri]) == [ConvertBraces(uri)];
    }
  }

  /** buildRequest, before the body and the auth block are added. */
  function BuildRequest(verb: string, uri: string, headers: seq<Header>, query: seq<QueryParam>,
                        baseUrlKey: string, description: Option<string>): (r: Request)
    ensures r.url.raw == "{{" + baseUrlKey + "}}/" + Join('/', r.url.path)
    ensures r.url.host == ["{{" + baseUrlKey + "}}"]
    ensures r.url.path == ConvertPathSegments(Explode('/', uri))
    ensures r.verb == verb && r.header == headers && r.url.query == query && r.description == description
  {
    PathSegmentsJoin(uri);
    Request(verb, headers,
      Url("{{" + baseUrlKey + "}}/" + ConvertBraces(uri), ["{{" + baseUrlKey + "}}"],
          ConvertPathSegments(Explode('/', uri)), query),
      description, None, [])
  }

  // =====================================================================
  // Naming and events
  // =====================================================================

  /** getRouteName: the route's name, else a truthy description, else the URI. */
  function GetRouteName(route: Route): (name: string)
    ensures route.routeName.Some? ==> name == route.routeName.value
    ensures route.routeName.None? && route.tags.description.Some? && Truthy(route.tags.description.value) ==>
      name == route.tags.description.value
    ensures route.routeName.None? && !(route.tags.description.Some? && Truthy(route.tags.description.value)) ==>
      name == route.uri
  {
    if route.routeName.Some? then route.routeName.value
    else if route.tags.description.Some? && Truthy(route.tags.description.value) then route.tags.description.value
    else route.uri
  }

  function Script(listen: string, text: string): Event {
    Event(listen, "text/javascript", Explode('\n', text))
  }

  /** A policy member holding a script that is set and truthy. */
  predicate HasScript(s: Option<string>) {
    s.Some? && Truthy(s.value)
  }

  /** The events of a global policy: its pre-request script, then its test
      script, each when set and truthy. */
  function EventsOf(policy: Option<Policy>): (events: seq<Event>)
    ensures |events| <= 2
    ensures !IsGlobal(policy) ==> events == []
  {
    if !IsGlobal(policy) then []
    else
      (if HasScript(policy.value.prerequest) then [Script("prerequest", policy.value.prerequest.value)] else [])
      + (if HasScript(policy.value.test) then [Script("test", policy.value.test.value)] else [])
  }

  /** buildEvents. */
  method BuildEvents(policy: Option<Policy>) returns (events: seq<Event>)
    ensures events == EventsOf(policy)
  {
    if !IsGlobal(policy) {
      return [];
    }
    events := [];
    if HasScript(policy.value.prerequest) {
      events := events + [Script("prerequest", policy.value.prerequest.value)];
    }
    if HasScript(policy.value.test) {
      events := events + [Script("test", policy.value.test.value)];
    }
  }

  /** Each event carries its script's lines: joined back they are the script.
      A global policy yields an event for a script exactly when that script is
      set and truthy, and with both scripts the pre-request event comes first. */
  lemma EventsCarryScripts(policy: Option<Policy>)
    ensures forall e :: e in EventsOf(policy) ==>
      e.scriptType == "text/javascript" &&
      (e.listen == "prerequest" ==> Join('\n', e.exec) == policy.value.prerequest.value) &&
      (e.listen == "test" ==> Join('\n', e.exec) == policy.value.test.value)
    ensures IsGlobal(policy) && HasScript(policy.value.prerequest) && HasScript(policy.value.test) ==>
      |EventsOf(policy)| == 2 && EventsOf(policy)[0].listen == "prerequest" && EventsOf(policy)[1].listen == "test"
    ensures IsGlobal(policy) ==>
      (HasScript(policy.value.prerequest) <==> exists e :: e in EventsOf(policy) && e.listen == "prerequest")
    ensures IsGlobal(policy) ==>
      (HasScript(policy.value.test) <==> exists e :: e in EventsOf(policy) && e.listen == "test")
  {
    if IsGlobal(policy) {
      if HasScript(policy.value.prerequest) {
        JoinExplode('\n', policy.value.prerequest.value);
        assert EventsOf(policy)[0] == Script("prerequest", policy.value.prerequest.value);
      }
      if HasScript(policy.value.test) {
        JoinExplode('\n', policy.value.test.value);
        assert EventsOf(policy)[|EventsOf(policy)| - 1] == Script("test", policy.value.test.value);
      }
    }
  }

  // =====================================================================
  // Rule-to-placeholder typing
  // =====================================================================

  /** One rule of a list: text, or a value (a rule object) that trim() refuses. */
  datatype RuleEntry = Text(s: string) | Unconvertible(error: string)

  /** A field's rules: a `|`-separated string or a list. */
  datatype RuleSet = RuleString(s: string) | RuleList(entries: seq<RuleEntry>)

  datatype Placeholder = PString | PInteger | PBoolean | PArray | PFile | PDate | PUuid {
    function Token(): string {
      match this
      case PString => "<string>"
      case PInteger => "<integer>"
      case PBoolean => "<boolean>"
      case PArray => "<array>"
      case PFile => "<file>"
      case PDate => "<date>"
      case PUuid => "<uuid>"
    }
  }

  function Normalise(rule: string): string {
    Lower(Trim(rule))
  }

  /** The placeholder a single rule names, if it names one. */
  function Recognise(rule: string): Option<Placeholder>
  {
    var n := Normalise(rule);
    if n == "string" || n == "email" then Some(PString)
    else if n == "integer" || n == "int" || n == "numeric" then Some(PInteger)
    else if n == "boolean" then Some(PBoolean)
    else if n == "array" then Some(PArray)
    else if n == "file" then Some(PFile)
    else if n == "date" then Some(PDate)
    else if n == "uuid" then Some(PUuid)
    else None
  }

  function Texts(parts: seq<string>): (r: seq<RuleEntry>)
    ensures |r| == |parts|
    ensures forall i :: 0 <= i < |parts| ==> r[i] == Text(parts[i])
  {
    seq(|parts|, i requires 0 <= i < |parts| => Text(parts[i]))
  }

  function Entries(rules: RuleSet): seq<RuleEntry> {
    match rules
    case RuleString(s) => Texts(Explode('|', s))
    case RuleList(es) => es
  }

  /** Whether entry i is the first that decides: recognised or refused, with
      every entry before it text that names no placeholder. */
  predicate Undecided(es: seq<RuleEntry>, i: nat)
    requires i <= |es|
  {
    forall k :: 0 <= k < i ==> es[k].Text? && Recognise(es[k].s).None?
  }

  /** The typing of a rule list, entry by entry. */
  function Scan(es: seq<RuleEntry>): Result<Placeholder>
    decreases |es|
  {
    if es == [] then Ok(PString)
    else
      match es[0]
      case Unconvertible(e) => Err(e)
      case Text(s) => if Recognise(s).Some? then Ok(Recognise(s).value) else Scan(es[1..])
  }

  /** The first entry that is recognised, or that trim() refuses, decides. */
  lemma {:induction false} ScanDecided(es: seq<RuleEntry>, i: nat)
    requires i < |es| && Undecided(es, i)
    requires es[i].Unconvertible? || Recognise(es[i].s).Some?
    ensures Scan(es) == if es[i].Unconvertible? then Err(es[i].error) else Ok(Recognise(es[i].s).value)
    decreases i
  {
    if i > 0 {
      assert es[0].Text? && Recognise(es[0].s).None?;
      assert es[1..][i - 1] == es[i];
      assert Undecided(es[1..], i - 1) by {
        assert forall k :: 0 <= k < i - 1 ==> es[1..][k] == es[k + 1];
      }
      ScanDecided(es[1..], i - 1);
    }
  }

  lemma UndecidedStep(es: seq<RuleEntry>, i: nat)
    requires i < |es| && Undecided(es, i) && es[i].Text? && Recognise(es[i].s).None?
    ensures Undecided(es, i + 1)
  {
  }

  /** With no entry recognised, the type is `<string>`. */
  lemma {:induction false} ScanUndecided(es: seq<RuleEntry>)
    requires Undecided(es, |es|)
    ensures Scan(es) == Ok(PString)
    decreases |es|
  {
    if es != [] {
      assert es[0].Text? && Recognise(es[0].s).None?;
      assert Undecided(es[1..], |es[1..]|) by {
        assert forall k :: 0 <= k < |es| - 1 ==> es[1..][k] == es[k + 1];
      }
      ScanUndecided(es[1..]);
    }
  }

  function TypeFromRules(rules: RuleSet): Result<Placeholder> {
    Scan(Entries(rules))
  }

  /** inferTypeNameFromRules: the loop with its early returns. A rule trim()
      refuses raises; the exception is the caller's. */
  method InferTypeNameFromRules(rules: RuleSet) returns (r: Result<Placeholder>)
    ensures r == TypeFromRules(rules)
  {
    var es := Entries(rules);
    var i := 0;
    while i < |es|
      invariant 0 <= i <= |es|
      invariant Undecided(es, i)
    {
      if es[i].Unconvertible? {
        ScanDecided(es, i);
        return Err(es[i].error);
      }
      var found := Recognise(es[i].s);
      if found.Some? {
        ScanDecided(es, i);
        return Ok(found.value);
      }
      UndecidedStep(es, i);
      i := i + 1;
    }
    ScanUndecided(es);
    return Ok(PString);
  }

  /** A rule string types as the list of its parts. */
  lemma StringRulesAsList(parts: seq<string>)
    requires |parts| >= 1
    requires forall p :: p in parts ==> '|' !in p
    ensures TypeFromRules(RuleString(Join('|', parts))) == TypeFromRules(RuleList(Texts(parts)))
  {
    ExplodeJoin('|', parts);
  }

  /** Typing ignores case and surrounding blanks: normalising is idempotent. */
  lemma NormaliseIdempotent(rule: string)
    ensures Normalise(Normalise(rule)) == Normalise(rule)
    ensures Recognise(Normalise(rule)) == Recognise(rule)
  {
    var t := Trim(rule);
    var n := Lower(t);
    TrimEnds(rule);
    TrimOfTrimmed(n);
    assert Lower(n) == n;
  }

  /** A rule already in normal form is its own normal form. */
  lemma NormaliseOfNormal(rule: string)
    requires rule == [] || (!IsBlank(rule[0]) && !IsBlank(rule[|rule| - 1]))
    requires forall i :: 0 <= i < |rule| ==> !IsUpper(rule[i])
    ensures Normalise(rule) == rule
  {
    assert TrimLeft(rule) == rule;
    assert TrimRight(rule) == rule;
  }

  lemma RuleExampleRequiredInteger()
    ensures TypeFromRules(RuleList([Text("required"), Text("integer")])) == Ok(PInteger)
  {
    RequiredNamesNoType();
    IntegerNamesInteger();
    ScanSecond([Text("required"), Text("integer")], PInteger);
  }

  /** Two text entries, the first naming no placeholder: the second decides. */
  lemma ScanSecond(es: seq<RuleEntry>, p: Placeholder)
    requires |es| == 2 && es[0].Text? && es[1].Text?
    requires Recognise(es[0].s).None? && Recognise(es[1].s) == Some(p)
    ensures Scan(es) == Ok(p)
  {
    assert es[1..][0] == es[1];
  }

  lemma IntegerNamesInteger()
    ensures Recognise("integer") == Some(PInteger)
  {
    NormaliseOfNormal("integer");
  }

  lemma RuleExampleNoType()
    ensures TypeFromRules(RuleList([Text("required"), Text("max:255")])) == Ok(PString)
  {
    RequiredNamesNoType();
    MaxNamesNoType();
    var es := [Text("required"), Text("max:255")];
    forall k | 0 <= k < |es| ensures es[k].Text? && Recognise(es[k].s).None? {
      if k == 0 {
        assert es[k].s == "required";
      } else {
        assert es[k].s == "max:255";
      }
    }
    ScanUndecided(es);
  }

  lemma RequiredNamesNoType()
    ensures Recognise("required").None?
  {
    NormaliseOfNormal("required");
  }

  lemma MaxNamesNoType()
    ensures Recognise("max:255").None?
  {
    NormaliseOfNormal("max:255");
  }

  /** Case and surrounding blanks do not matter. */
  lemma RuleExampleBlankAndCase()
    ensures TypeFromRules(RuleList([Text(" Boolean ")])) == Ok(PBoolean)
  {
    TrimExample();
    LowerExample();
    assert Normalise(" Boolean ") == "boolean";
  }

  lemma LowerExample()
    ensures Lower("Boolean") == "boolean"
  {
    var l := Lower("Boolean");
    assert LowerChar('B') == 'b';
    assert forall i :: 1 <= i < 7 ==> !IsUpper("Boolean"[i]) && l[i] == "Boolean"[i];
  }

  lemma TrimExample()
    ensures Trim(" Boolean ") == "Boolean"
  {
    var s := " Boolean ";
    assert s[1..] == "Boolean ";
    assert TrimLeft("Boolean ") == "Boolean ";
    assert "Boolean "[..7] == "Boolean";
    assert TrimRight("Boolean") == "Boolean";
  }

  /** A `|`-separated rule string types like the list of its parts. */
  lemma RuleExampleString()
    ensures TypeFromRules(RuleString("required|integer")) == Ok(PInteger)
  {
    TwoRuleString("required", "integer", "required|integer");
    RuleExampleRequiredInteger();
  }

  lemma TwoRuleString(first: string, second: string, joined: string)
    requires '|' !in first && '|' !in second && joined == first + "|" + second
    ensures TypeFromRules(RuleString(joined)) == TypeFromRules(RuleList([Text(first), Text(second)]))
  {
    var parts := [first, second];
    assert Join('|', parts) == joined by {
      assert parts[1..] == [second];
    }
    StringRulesAsList(parts);
    assert Texts(parts) == [Text(first), Text(second)];
  }

  // =====================================================================
  // Request bodies
  // =====================================================================

  /** The body that reports a request class whose rules could not be read. */
  function ErrorBody(message: string, className: string): Object {
    [(StrKey("error"), JString("Could not resolve request rules: " + message)),
     (StrKey("request_class"), JString(className))]
  }

  /** Each field mapped to the token of its rules' type, in order, or the
      first error typing raised. */
  function Placeholders(rules: seq<(Key, RuleSet)>): (r: Result<Object>)
    ensures r.Ok? <==> forall i :: 0 <= i < |rules| ==> TypeFromRules(rules[i].1).Ok?
    ensures r.Ok? ==> |r.value| == |rules| && forall i :: 0 <= i < |rules| ==>
      r.value[i] == (rules[i].0, JString(TypeFromRules(rules[i].1).value.Token()))
    decreases |rules|
  {
    if rules == [] then Ok([])
    else
      var n := |rules| - 1;
      var init := Placeholders(rules[..n]);
      assert forall i :: 0 <= i < n ==> rules[i] == rules[..n][i];
      if init.Err? then init
      else
        match TypeFromRules(rules[n].1)
        case Err(m) => Err(m)
        case Ok(p) =>
          PlaceholdersAppend(rules, init.value, p);
          Ok(init.value + [(rules[n].0, JString(p.Token()))])
  }

  /** The step of Placeholders that appends the last field's token. */
  lemma PlaceholdersAppend(rules: seq<(Key, RuleSet)>, init: Object, p: Placeholder)
    requires |rules| > 0 && |init| == |rules| - 1
    requires forall i :: 0 <= i < |rules| - 1 ==> TypeFromRules(rules[i].1).Ok?
    requires forall i :: 0 <= i < |rules| - 1 ==>
      init[i] == (rules[i].0, JString(TypeFromRules(rules[i].1).value.Token()))
    requires TypeFromRules(rules[|rules| - 1].1) == Ok(p)
    ensures var r := init + [(rules[|rules| - 1].0, JString(p.Token()))];
      forall i :: 0 <= i < |rules| ==> r[i] == (rules[i].0, JString(TypeFromRules(rules[i].1).value.Token()))
  {
    var r := init + [(rules[|rules| - 1].0, JString(p.Token()))];
    assert forall i :: 0 <= i < |rules| - 1 ==> r[i] == init[i];
  }

  /** Once a field's rules raise, the fields after it change nothing. */
  lemma {:induction false} PlaceholdersKeepError(rules: seq<(Key, RuleSet)>, n: nat)
    requires n <= |rules| && Placeholders(rules[..n]).Err?
    ensures Placeholders(rules) == Placeholders(rules[..n])
    decreases |rules| - n
  {
    if n < |rules| {
      assert rules[..n + 1][..n] == rules[..n];
      PlaceholdersKeepError(rules, n + 1);
    } else {
      assert rules[..n] == rules;
    }
  }

  /** getParamsFromRequestClass, as a value: an exception while reading the
      rules, or while typing them, gives the error body; no rules gives the
      defaults. */
  function ParamsFromRequestClass(rc: RequestClass, defaults: Object): (params: Object)
    ensures rc.outcome.Raised? ==> params == ErrorBody(rc.outcome.message, rc.name)
    ensures rc.outcome.Rules? && rc.outcome.rules == [] ==> params == defaults
    ensures (rc.outcome.Rules? && rc.outcome.rules != []
             && forall i :: 0 <= i < |rc.outcome.rules| ==> TypeFromRules(rc.outcome.rules[i].1).Ok?) ==>
        |params| == |rc.outcome.rules| && forall i :: 0 <= i < |rc.outcome.rules| ==>
          params[i] == (rc.outcome.rules[i].0, JString(TypeFromRules(rc.outcome.rules[i].1).value.Token()))
    ensures rc.outcome.Rules? && rc.outcome.rules != [] && Placeholders(rc.outcome.rules).Err? ==>
      params == ErrorBody(Placeholders(rc.outcome.rules).message, rc.name)
  {
    match rc.outcome
    case Raised(m) => ErrorBody(m, rc.name)
    case Rules(rules) =>
      if rules == [] then defaults
      else
        match Placeholders(rules)
        case Ok(ps) => ps
        case Err(m) => ErrorBody(m, rc.name)
  }

  /** The first field whose rules raise decides the error: its message is
      the one the Placeholders error carries. */
  lemma PlaceholdersFirstError(rules: seq<(Key, RuleSet)>, j: nat)
    requires j < |rules| && TypeFromRules(rules[j].1).Err?
    requires forall i :: 0 <= i < j ==> TypeFromRules(rules[i].1).Ok?
    ensures Placeholders(rules) == Err(TypeFromRules(rules[j].1).message)
  {
    assert rules[..j + 1][..j] == rules[..j];
    assert forall i :: 0 <= i < j ==> rules[..j][i] == rules[i];
    assert Placeholders(rules[..j]).Ok?;
    assert Placeholders(rules[..j + 1]) == Err(TypeFromRules(rules[j].1).message);
    PlaceholdersKeepError(rules, j + 1);
  }

  /** A request class whose field `j` is the first to raise while typing
      reports that field's exception in the error body. */
  lemma RequestClassTypingRaises(rc: RequestClass, defaults: Object, j: nat)
    requires rc.outcome.Rules? && j < |rc.outcome.rules|
    requires TypeFromRules(rc.outcome.rules[j].1).Err?
    requires forall i :: 0 <= i < j ==> TypeFromRules(rc.outcome.rules[i].1).Ok?
    ensures ParamsFromRequestClass(rc, defaults)
      == ErrorBody(TypeFromRules(rc.outcome.rules[j].1).message, rc.name)
  {
    PlaceholdersFirstError(rc.outcome.rules, j);
  }

  /** getParamsFromRequestClass: the loop over the fields. */
  method GetParamsFromRequestClass(rc: RequestClass, defaults: Object) returns (params: Object)
    ensures params == ParamsFromRequestClass(rc, defaults)
  {
    if rc.outcome.Raised? {
      return ErrorBody(rc.outcome.message, rc.name);
    }
    var rules := rc.outcome.rules;
    if rules == [] {
      return defaults;
    }
    params := [];
    var i := 0;
    while i < |rules|
      invariant 0 <= i <= |rules|
      invariant Placeholders(rules[..i]).Ok? && params == Placeholders(rules[..i]).value
    {
      var t := InferTypeNameFromRules(rules[i].1);
      assert rules[..i + 1][..i] == rules[..i];
      if t.Err? {
        PlaceholdersKeepError(rules, i + 1);
        return ErrorBody(t.message, rc.name);
      }
      params := params + [(rules[i].0, JString(t.value.Token()))];
      i := i + 1;
    }
    assert rules[..i] == rules;
  }

  /** getParamsFromDocblock as written: a decoded `@body` that is not an array
      fails the `array` return type, and nothing catches the TypeError. */
  function ParamsFromDocblockAsWritten(body: Option<Json>, defaults: Object): Result<Object> {
    if body.None? || body.value.JNull? then Ok(defaults)
    else if body.value.JArray? then Ok(body.value.entries)
    else Err("Return value must be of type array")
  }

  /** A scalar `@body` makes the as-written fallback raise instead of using
      the defaults. */
  lemma ScalarBodyRaises(defaults: Object)
    ensures ParamsFromDocblockAsWritten(Some(JInt(42)), defaults).Err?
    ensures ParamsFromDocblockAsWritten(Some(JString("x")), defaults).Err?
  {
  }

  /** getParamsFromDocblock as intended: the decoded `@body` when it is an
      array, otherwise the default parameters. */
  function ParamsFromDocblock(body: Option<Json>, defaults: Object): (params: Object)
    ensures body.Some? && body.value.JArray? ==> params == body.value.entries
    ensures !(body.Some? && body.value.JArray?) ==> params == defaults
  {
    if body.Some? && body.value.JArray? then body.value.entries else defaults
  }

  /** Wherever the written code returns, the intended one returns the same. */
  lemma ParamsFromDocblockAgrees(body: Option<Json>, defaults: Object)
    ensures ParamsFromDocblockAsWritten(body, defaults).Ok? ==>
      ParamsFromDocblockAsWritten(body, defaults).value == ParamsFromDocblock(body, defaults)
    ensures ParamsFromDocblockAsWritten(body, defaults).Err? <==>
      body.Some? && !body.value.JArray? && !body.value.JNull?
  {
  }

  /** buildRequestBody, as a value: the request class's parameters when there
      is one, otherwise the docblock's. */
  function RequestParams(route: Route, config: Config): Object {
    if route.requestClass.Some? then ParamsFromRequestClass(route.requestClass.value, config.defaultParams)
    else ParamsFromDocblock(route.tags.body, config.defaultParams)
  }

  method BuildRequestBody(route: Route, config: Config) returns (params: Object)
    ensures params == RequestParams(route, config)
  {
    if route.requestClass.Some? {
      params := GetParamsFromRequestClass(route.requestClass.value, config.defaultParams);
    } else {
      params := ParamsFromDocblock(route.tags.body, config.defaultParams);
    }
  }

  /** shouldHaveBody. */
  predicate ShouldHaveBody(verb: string) {
    verb in ["POST", "PUT", "PATCH", "GET"]
  }

  /** formatFormData: one text entry per parameter, in order. */
  function FormatFormData(params: Object): (r: seq<FormField>)
    ensures |r| == |params|
    ensures forall i :: 0 <= i < |params| ==> r[i] == TextField(params[i].0, params[i].1)
  {
    seq(|params|, i requires 0 <= i < |params| => TextField(params[i].0, params[i].1))
  }

  /** A file entry names a path at which a file exists. */
  predicate IsFilePath(v: Json, files: set<string>) {
    v.JString? && v.s in files
  }

  /** formatMultipart: a parameter whose value is the path of an existing file
      becomes a file entry, every other one a text entry. */
  function FormatMultipart(params: Object, files: set<string>): (r: seq<FormField>)
    ensures |r| == |params|
    ensures forall i :: 0 <= i < |params| ==>
      r[i] == if IsFilePath(params[i].1, files) then FileField(params[i].0, [params[i].1.s]) else TextField(params[i].0, params[i].1)
  {
    seq(|params|, i requires 0 <= i < |params| =>
      if IsFilePath(params[i].1, files) then FileField(params[i].0, [params[i].1.s]) else TextField(params[i].0, params[i].1))
  }

  /** The parameter a form entry stands for: its key with its value, or with
      the path of its file. */
  function FieldParam(f: FormField): (Key, Json) {
    match f
    case TextField(k, v) => (k, v)
    case FileField(k, src) => (k, if src != [] then JString(src[0]) else JNull)
  }

  function FieldParams(fields: seq<FormField>): (params: Object)
    ensures |params| == |fields|
    ensures forall i :: 0 <= i < |fields| ==> params[i] == FieldParam(fields[i])
  {
    seq(|fields|, i requires 0 <= i < |fields| => FieldParam(fields[i]))
  }

  /** Form entries lose nothing: reading them back gives the parameters, in
      order, whether or not some of them became file entries. */
  lemma FormFieldsRoundTrip(params: Object, files: set<string>)
    ensures FieldParams(FormatFormData(params)) == params
    ensures FieldParams(FormatMultipart(params, files)) == params
  {
    var a := FieldParams(FormatFormData(params));
    var b := FieldParams(FormatMultipart(params, files));
    assert forall i :: 0 <= i < |params| ==> a[i] == params[i];
    forall i | 0 <= i < |params| ensures b[i] == params[i] {
      if IsFilePath(params[i].1, files) {
        assert FormatMultipart(params, files)[i] == FileField(params[i].0, [params[i].1.s]);
      }
    }
  }

  /** A `urlencoded` body of one inferred field. */
  lemma UrlencodedExample(files: set<string>)
    ensures var b := FormatBody([(StrKey("name"), JString("<string>"))], "urlencoded", files);
      b.Mode() == "urlencoded" && b == UrlEncoded([TextField(StrKey("name"), JString("<string>"))])
  {
    var params := [(StrKey("name"), JString("<string>"))];
    assert FormatFormData(params) == [TextField(StrKey("name"), JString("<string>"))];
  }

  /** formatBody: the body for the configured content type. */
  function FormatBody(params: Object, contentType: string, files: set<string>): (b: Body)
    ensures contentType == "json" ==> b == Raw(params, true)
    ensures contentType == "form-data" ==> b == FormData(FormatFormData(params))
    ensures contentType == "urlencoded" ==> b == UrlEncoded(FormatFormData(params))
    ensures contentType == "multipart" ==> b == FormData(FormatMultipart(params, files))
    ensures contentType !in {"json", "form-data", "urlencoded", "multipart"} ==> b == Raw(params, false)
  {
    if contentType == "json" then Raw(params, true)
    else if contentType == "form-data" then FormData(FormatFormData(params))
    else if contentType == "urlencoded" then UrlEncoded(FormatFormData(params))
    else if contentType == "multipart" then FormData(FormatMultipart(params, files))
    else Raw(params, false)
  }

  /** The body a route gets: parameters only for a body-carrying method, and a
      body only when there are parameters. */
  function BodyOf(route: Route, config: Config, files: set<string>): Option<Body> {
    if ShouldHaveBody(route.verb) && RequestParams(route, config) != [] then
      Some(FormatBody(RequestParams(route, config), config.contentType, files))
    else None
  }

  // =====================================================================
  // Response examples
  // =====================================================================

  /** buildResponse: the `@response` text when truthy, else the sampled
      shape; one example at most. */
  function BuildResponse(literal: Option<string>, invocation: RE.Invocation): (r: seq<ResponseExample>)
    ensures |r| <= 1
    ensures literal.Some? && Truthy(literal.value) ==> r == [ResponseExample("Example", "OK", 200, Literal(literal.value))]
    ensures !(literal.Some? && Truthy(literal.value)) ==>
      (r == [] <==> RE.Guess(invocation).None?)
      && (r != [] ==> r[0] == ResponseExample("Example", "OK", 200, Sampled(RE.Guess(invocation).value)))
  {
    if literal.Some? && Truthy(literal.value) then
      [ResponseExample("Example", "OK", 200, Literal(literal.value))]
    else
      match RE.Guess(invocation)
      case Some(shape) => [ResponseExample("Example", "OK", 200, Sampled(shape))]
      case None => []
  }

  // =====================================================================
  // Request items
  // =====================================================================

  predicate RouteUsable(route: Route) {
    AuthUsable(route.tags.auth)
  }

  predicate ConfigUsable(config: Config) {
    forall i :: 0 <= i < |config.folders| ==> AuthUsable(config.folders[i].1.auth)
  }

  lemma PolicyUsable(uri: string, config: Config)
    requires ConfigUsable(config)
    ensures var p := GetFolderConfig(uri, config.folders); p.None? || AuthUsable(p.value.auth)
  {
    var p := GetFolderConfig(uri, config.folders);
    if p.Some? {
      var key := DetectFolderKey(uri, Keys(config.folders));
      var k := if key.Some? && Truthy(key.value) && PolicyAt(config.folders, key.value).Some? then key.value else "default";
      assert p == PolicyAt(config.folders, k);
      var i :| 0 <= i < |config.folders| && config.folders[i] == (k, p.value);
    }
  }

  /** The auth a route ends up with, before formatting: none under `@no-auth`. */
  function EffectiveAuth(route: Route, policy: Option<Policy>): Option<Object> {
    if ExtractNoAuth(route.doc) then None else BuildAuth(route.tags.auth, policy)
  }

  /** The header list a route ends up with. */
  function EffectiveHeaders(route: Route, policy: Option<Policy>): seq<Header> {
    var headers := BuildHeaders(route.tags.headers, policy);
    if ExtractNoAuth(route.doc) then NoAuthHeaders(headers) else headers
  }

  /** The auth block: the effective auth formatted when truthy, else `noauth`. */
  function AuthBlock(auth: Option<Object>): Object
    requires AuthUsable(auth)
  {
    if auth.Some? && auth.value != [] then FormatAuth(auth.value) else NoAuthBlock
  }

  /** buildRouteItem, as a value. */
  function RouteItemOf(route: Route, config: Config, files: set<string>): RouteItem
    requires RouteUsable(route) && ConfigUsable(config)
  {
    var policy := GetFolderConfig(route.uri, config.folders);
    PolicyUsable(route.uri, config);
    var request := BuildRequest(route.verb, route.uri, EffectiveHeaders(route, policy),
      RewriteQuery(route.tags.query), config.baseUrlKey, route.tags.description);
    RouteItem(
      GetRouteName(route),
      request.(body := BodyOf(route, config, files), auth := AuthBlock(EffectiveAuth(route, policy))),
      BuildResponse(route.tags.response, route.invocation),
      EventsOf(policy))
  }

  /** buildRouteItem. `files` are the paths at which a file exists. */
  method BuildRouteItem(route: Route, config: Config, files: set<string>) returns (item: RouteItem)
    requires RouteUsable(route) && ConfigUsable(config)
    ensures item == RouteItemOf(route, config, files)
  {
    var policy := GetFolderConfig(route.uri, config.folders);
    PolicyUsable(route.uri, config);
    var headers := BuildHeaders(route.tags.headers, policy);
    var auth := BuildAuth(route.tags.auth, policy);
    if ExtractNoAuth(route.doc) {
      auth := None;
      headers := NoAuthHeaders(headers);
    }
    var query := BuildQueryParams(route.tags.query);
    var request := BuildRequest(route.verb, route.uri, headers, query, config.baseUrlKey, route.tags.description);
    if ShouldHaveBody(route.verb) {
      var params := BuildRequestBody(route, config);
      if params != [] {
        request := request.(body := Some(FormatBody(params, config.contentType, files)));
      }
    }
    var response := BuildResponse(route.tags.response, route.invocation);
    request := request.(auth := if auth.Some? && auth.value != [] then FormatAuth(auth.value) else NoAuthBlock);
    var events := BuildEvents(policy);
    item := RouteItem(GetRouteName(route), request, response, events);
  }

  /** Header and auth inheritance: the route's headers, then the global
      policy's; under `@no-auth` no credential header is left, whatever its
      source, the others keep their order, and the auth block is `noauth`. */
  lemma ItemHeadersAndAuth(route: Route, config: Config, files: set<string>)
    requires RouteUsable(route) && ConfigUsable(config)
    ensures var item := RouteItemOf(route, config, files);
      var policy := GetFolderConfig(route.uri, config.folders);
      var inherited := BuildHeaders(route.tags.headers, policy);
      (!ExtractNoAuth(route.doc) ==> item.request.header == inherited)
      && (ExtractNoAuth(route.doc) ==>
            item.request.header == NoAuthHeaders(inherited)
            && (forall h :: h in item.request.header ==> !Credential(h))
            && (forall h :: h in inherited && !Credential(h) ==> h in item.request.header)
            && item.request.auth == NoAuthBlock)
  {
  }

  /** The auth block of an item without `@no-auth`: the route's own auth, else
      the global policy's, formatted; `noauth` when that is missing or empty. */
  lemma ItemAuth(route: Route, config: Config, files: set<string>)
    requires RouteUsable(route) && ConfigUsable(config)
    requires !ExtractNoAuth(route.doc)
    ensures var policy := GetFolderConfig(route.uri, config.folders); policy.None? || AuthUsable(policy.value.auth)
    ensures var item := RouteItemOf(route, config, files);
      var policy := GetFolderConfig(route.uri, config.folders);
      (route.tags.auth.Some? && route.tags.auth.value != [] ==> item.request.auth == FormatAuth(route.tags.auth.value))
      && (route.tags.auth == Some([]) ==> item.request.auth == NoAuthBlock)
      && (route.tags.auth.None? && IsGlobal(policy) && policy.value.auth.Some? && policy.value.auth.value != [] ==>
            item.request.auth == FormatAuth(policy.value.auth.value))
      && (route.tags.auth.None? && IsGlobal(policy) && (policy.value.auth.None? || policy.value.auth.value == []) ==>
            item.request.auth == NoAuthBlock)
      && (route.tags.auth.None? && !IsGlobal(policy) ==> item.request.auth == NoAuthBlock)
  {
    PolicyUsable(route.uri, config);
  }

  /** A body is attached exactly for POST, PUT, PATCH and GET with a
      non-empty parameter set. */
  lemma ItemBody(route: Route, config: Config, files: set<string>)
    requires RouteUsable(route) && ConfigUsable(config)
    ensures RouteItemOf(route, config, files).request.body.Some?
      <==> route.verb in ["POST", "PUT", "PATCH", "GET"] && RequestParams(route, config) != []
  {
  }

  lemma ExplodeExample()
    ensures Explode('/', "api/users/{id}") == ["api", "users", "{id}"]
  {
    var parts := ["api", "users", "{id}"];
    assert Join('/', parts[2..]) == "{id}";
    assert Join('/', parts[1..]) == "users/{id}" by {
      assert parts[1..][1..] == parts[2..];
    }
    assert Join('/', parts) == "api/users/{id}";
    ExplodeJoin('/', parts);
  }

  lemma BracesExample()
    ensures ConvertBraces("{id}") == ":id"
  {
    var s := "{id}";
    assert s[1..] == "id}" && "id}"[1..] == "d}" && "d}"[1..] == "}";
    assert WordRun("}") == 0;
    assert WordRun("id}") == 2;
    assert PlaceholderAhead(s);
    assert s[1..3] == "id" && s[4..] == [];
  }

  /** A segment without braces is left alone. */
  lemma {:induction false} ConvertBracesWithoutBraces(s: string)
    requires '{' !in s
    ensures ConvertBraces(s) == s
    decreases |s|
  {
    if s != [] {
      assert s[0] != '{';
      assert '{' !in s[1..] by {
        assert forall k :: 0 <= k < |s[1..]| ==> s[1..][k] == s[k + 1];
      }
      ConvertBracesWithoutBraces(s[1..]);
    }
  }

  /** `api/users/{id}` becomes the path `api`, `users`, `:id`. */
  lemma ApiScenarioPath()
    ensures ConvertPathSegments(Explode('/', "api/users/{id}")) == ["api", "users", ":id"]
  {
    ExplodeExample();
    SegmentsExample();
  }

  lemma SegmentsExample()
    ensures ConvertPathSegments(["api", "users", "{id}"]) == ["api", "users", ":id"]
  {
    var segments := ["api", "users", "{id}"];
    var r := ConvertPathSegments(segments);
    BracesExample();
    ConvertBracesWithoutBraces("api");
    ConvertBracesWithoutBraces("users");
    assert r[0] == "api" && r[1] == "users" && r[2] == ":id";
  }

  // =====================================================================
  // Placement in the folder tree
  // =====================================================================

  /** The folder names for a URI: one per level, `min(level, #segments)` of them
      (none for a level below one), each the segment with its first letter
      upper-cased. */
  function FolderNames(uri: string, level: int): (names: seq<string>)
    ensures var segments := Explode('/', uri);
      |names| == (if level <= 0 then 0 else if level < |segments| then level else |segments|)
      && forall i :: 0 <= i < |names| ==> names[i] == Ucfirst(segments[i])
  {
    var segments := Explode('/', uri);
    var depth := if level <= 0 then 0 else if level < |segments| then level else |segments|;
    seq(depth, i requires 0 <= i < depth => Ucfirst(segments[i]))
  }

  /** The inner search of the walk: the position of the first child with the
      given name, or the number of children when there is none. */
  method FindChild(children: seq<Entry>, segment: string) returns (j: nat)
    ensures j <= |children|
    ensures FirstNamed(children, segment) == if j < |children| then Some(j) else None
  {
    j := 0;
    while j < |children| && Name(children[j]) != segment
      invariant 0 <= j <= |children|
      invariant forall k :: 0 <= k < j ==> Name(children[k]) != segment
    {
      j := j + 1;
    }
    FirstNamedAt(children, segment, j);
  }

  /** assignToNestedFolder: walk down one level per folder name, reusing the
      first child of that name or appending a new folder (with the policy's
      auth block at the first level only), then append the item. The path of
      frames stands for the reference the PHP code descends through. */
  method AssignToNestedFolder(folders: seq<Entry>, uri: string, item: RouteItem, level: int, auth: Option<Object>)
    returns (result: seq<Entry>)
    ensures result == Assign(folders, FolderNames(uri, level), item, auth)
  {
    var segments := Explode('/', uri);
    var depth := if level < |segments| then level else |segments|;
    ghost var names := FolderNames(uri, level);
    ghost var target := Assign(folders, names, item, auth);
    var path: seq<Frame> := [];
    var current := folders;
    assert |names| == (if depth < 0 then 0 else depth);
    var i := 0;
    ghost var levelAuth := auth;
    ghost var rest := names;
    while i < depth
      invariant 0 <= i <= |names| && rest == names[i..]
      invariant levelAuth == if i == 0 then auth else None
      invariant Plug(path, Assign(current, rest, item, levelAuth)) == target
    {
      var segment := Ucfirst(segments[i]);
      assert rest[0] == segment;
      var j := FindChild(current, segment);
      var path', current';
      if j < |current| {
        path', current' := path + [Frame(current[..j], current[j], current[j + 1..])], current[j].items;
      } else {
        path', current' := path + [Frame(current, Folder(segment, if i == 0 then auth else None, []), [])], [];
      }
      WalkStep(path, current, path', current', rest, item, levelAuth, j);
      path, current, levelAuth, rest := path', current', None, rest[1..];
      i := i + 1;
    }
    AssignHere(current, rest, item, levelAuth);
    result := Plug(path, current + [Leaf(item, [])]);
  }

  /** One level of the walk: the frames and level after the step plug the
      rest of the insertion into what the frames and level before it plug. */
  lemma WalkStep(path: seq<Frame>, current: seq<Entry>, path': seq<Frame>, current': seq<Entry>,
                 rest: seq<string>, item: RouteItem, auth: Option<Object>, j: nat)
    requires rest != [] && FirstNamed(current, rest[0]) == if j < |current| then Some(j) else None
    requires j < |current| ==>
      path' == path + [Frame(current[..j], current[j], current[j + 1..])] && current' == current[j].items
    requires j >= |current| ==>
      path' == path + [Frame(current, Folder(rest[0], auth, []), [])] && current' == []
    ensures Plug(path', Assign(current', rest[1..], item, None)) == Plug(path, Assign(current, rest, item, auth))
  {
    if j < |current| {
      DescendIntoChild(path, current, rest, item, auth, j);
    } else {
      DescendIntoNewFolder(path, current, rest, item, auth);
    }
  }

  lemma AssignHere(list: seq<Entry>, names: seq<string>, item: RouteItem, auth: Option<Object>)
    requires names == []
    ensures Assign(list, names, item, auth) == list + [Leaf(item, [])]
  {
  }

  /** The auth block a folder created at the first level carries. */
  function FolderAuth(p: Policy): Option<Object>
    requires AuthUsable(p.auth)
  {
    if p.auth.Some? then Some(FormatAuth(p.auth.value)) else None
  }

  /** addRouteToFolders, as a value: under the folder path of the route's
      policy when there is a non-empty one (one level when it sets none), at
      the root otherwise. */
  function Placed(folders: seq<Entry>, route: Route, item: RouteItem, config: Config): seq<Entry>
    requires ConfigUsable(config)
  {
    var policy := GetFolderConfig(route.uri, config.folders);
    PolicyUsable(route.uri, config);
    if policy.Some? && PolicyTruthy(policy.value) then
      Assign(folders, FolderNames(route.uri, policy.value.level.GetOr(1)), item, FolderAuth(policy.value))
    else
      folders + [Leaf(item, [])]
  }

  method AddRouteToFolders(folders: seq<Entry>, route: Route, item: RouteItem, config: Config)
    returns (result: seq<Entry>)
    requires ConfigUsable(config)
    ensures result == Placed(folders, route, item, config)
  {
    var policy := GetFolderConfig(route.uri, config.folders);
    PolicyUsable(route.uri, config);
    if policy.Some? && PolicyTruthy(policy.value) {
      var level := policy.value.level.GetOr(1);
      result := AssignToNestedFolder(folders, route.uri, item, level, FolderAuth(policy.value));
    } else {
      result := folders + [Leaf(item, [])];
    }
  }

  /** Placing an item adds it as exactly one new request item of the tree,
      keeping every other item and their order. */
  lemma PlacedAddsOneItem(folders: seq<Entry>, route: Route, item: RouteItem, config: Config)
    requires ConfigUsable(config)
    ensures InsertedOnce(Leaves(folders), Leaves(Placed(folders, route, item, config)), item)
  {
    var policy := GetFolderConfig(route.uri, config.folders);
    PolicyUsable(route.uri, config);
    if policy.Some? && PolicyTruthy(policy.value) {
      AssignAddsOneLeaf(folders, FolderNames(route.uri, policy.value.level.GetOr(1)), item, FolderAuth(policy.value));
    } else {
      LeavesConcat(folders, [Leaf(item, [])]);
      OneEntry(Leaf(item, []));
      InsertedAtEnd(Leaves(folders), item);
    }
  }

  lemma PlacedKeepsWellFormed(folders: seq<Entry>, route: Route, item: RouteItem, config: Config)
    requires ConfigUsable(config) && WellFormed(folders)
    ensures WellFormed(Placed(folders, route, item, config))
  {
    var policy := GetFolderConfig(route.uri, config.folders);
    PolicyUsable(route.uri, config);
    if policy.Some? && PolicyTruthy(policy.value) {
      AssignKeepsWellFormed(folders, FolderNames(route.uri, policy.value.level.GetOr(1)), item, FolderAuth(policy.value));
    } else {
      var r := folders + [Leaf(item, [])];
      assert forall i :: 0 <= i < |folders| ==> r[i] == folders[i];
      assert WellFormed(r[|folders|].items);
    }
  }

  /** Two routes under the same non-empty policy whose URIs give the same
      folder names share every folder: the second creates no node, and both
      items end up, in order, at the end of the same final folder. */
  lemma SharedPrefixSharesFolders(folders: seq<Entry>, r1: Route, r2: Route, x1: RouteItem, x2: RouteItem, config: Config)
    requires ConfigUsable(config)
    requires GetFolderConfig(r1.uri, config.folders) == GetFolderConfig(r2.uri, config.folders)
    requires var p := GetFolderConfig(r1.uri, config.folders);
      (p.Some? && PolicyTruthy(p.value)
       && FolderNames(r1.uri, p.value.level.GetOr(1)) == FolderNames(r2.uri, p.value.level.GetOr(1)))
    ensures var p := GetFolderConfig(r1.uri, config.folders);
      var names := FolderNames(r1.uri, p.value.level.GetOr(1));
      var once := Placed(folders, r1, x1, config);
      var twice := Placed(once, r2, x2, config);
      Descend(twice, names) == Some(DescendOrEmpty(folders, names) + [Leaf(x1, []), Leaf(x2, [])])
      && Size(twice) == Size(once) + 1
  {
    var p := GetFolderConfig(r1.uri, config.folders);
    PolicyUsable(r1.uri, config);
    var names := FolderNames(r1.uri, p.value.level.GetOr(1));
    var once := Placed(folders, r1, x1, config);
    SamePathSameFolder(folders, names, x1, x2, FolderAuth(p.value), FolderAuth(p.value));
    AssignThenDescend(folders, names, x1, FolderAuth(p.value));
    AssignSize(once, names, x2, FolderAuth(p.value));
  }

  /** Policy auth reaches only a folder created at the first level. */
  lemma PlacedAuth(folders: seq<Entry>, route: Route, item: RouteItem, config: Config)
    requires ConfigUsable(config)
    ensures var p := GetFolderConfig(route.uri, config.folders);
      AuthCount(Placed(folders, route, item, config)) == AuthCount(folders)
        + (if p.Some? && PolicyTruthy(p.value) && p.value.auth.Some?
              && FolderNames(route.uri, p.value.level.GetOr(1)) != []
              && FirstNamed(folders, FolderNames(route.uri, p.value.level.GetOr(1))[0]).None?
           then 1 else 0)
  {
    var policy := GetFolderConfig(route.uri, config.folders);
    PolicyUsable(route.uri, config);
    if policy.Some? && PolicyTruthy(policy.value) {
      AssignAuth(folders, FolderNames(route.uri, policy.value.level.GetOr(1)), item, FolderAuth(policy.value));
    } else {
      AuthCountConcat(folders, [Leaf(item, [])]);
      OneEntry(Leaf(item, []));
    }
  }

  // =====================================================================
  // The collection
  // =====================================================================

  predicate RoutesUsable(routes: seq<Route>) {
    forall i :: 0 <= i < |routes| ==> RouteUsable(routes[i])
  }

  /** The item tree after placing every route's item, in route order. */
  function Assemble(routes: seq<Route>, items: seq<RouteItem>, config: Config): seq<Entry>
    requires |items| == |routes| && ConfigUsable(config)
    decreases |routes|
  {
    if routes == [] then []
    else
      var n := |routes| - 1;
      Placed(Assemble(routes[..n], items[..n], config), routes[n], items[n], config)
  }

  lemma AssembleStep(routes: seq<Route>, items: seq<RouteItem>, config: Config, i: nat)
    requires |items| == |routes| && ConfigUsable(config) && i < |routes|
    ensures Assemble(routes[..i + 1], items[..i + 1], config)
      == Placed(Assemble(routes[..i], items[..i], config), routes[i], items[i], config)
  {
    assert routes[..i + 1][..i] == routes[..i] && items[..i + 1][..i] == items[..i];
  }

  /** The items of the routes, in order. */
  function ItemsOf(routes: seq<Route>, config: Config, files: set<string>): (items: seq<RouteItem>)
    requires RoutesUsable(routes) && ConfigUsable(config)
    ensures |items| == |routes|
    ensures forall i :: 0 <= i < |routes| ==> items[i] == RouteItemOf(routes[i], config, files)
  {
    seq(|routes|, i requires 0 <= i < |routes| && RoutesUsable(routes) && ConfigUsable(config) =>
      RouteItemOf(routes[i], config, files))
  }

  /** build: the collection with every route's item placed in route order. */
  method Build(routes: seq<Route>, config: Config, files: set<string>) returns (c: Collection)
    requires RoutesUsable(routes) && ConfigUsable(config)
    ensures c == Collection(Info(config.collectionName, config.collectionSchema),
      Assemble(routes, ItemsOf(routes, config, files), config))
  {
    ghost var items := ItemsOf(routes, config, files);
    var folders: seq<Entry> := [];
    var i := 0;
    while i < |routes|
      invariant 0 <= i <= |routes|
      invariant folders == Assemble(routes[..i], items[..i], config)
    {
      var item := BuildRouteItem(routes[i], config, files);
      AssembleStep(routes, items, config, i);
      folders := AddRouteToFolders(folders, routes[i], item, config);
      i := i + 1;
    }
    assert routes[..i] == routes && items[..i] == items;
    c := Collection(Info(config.collectionName, config.collectionSchema), folders);
  }

  /** Every item appears in the tree exactly once, and nothing else does. */
  lemma {:induction false} AssembleKeepsEveryItem(routes: seq<Route>, items: seq<RouteItem>, config: Config)
    requires |items| == |routes| && ConfigUsable(config)
    ensures multiset(Leaves(Assemble(routes, items, config))) == multiset(items)
    decreases |routes|
  {
    if routes != [] {
      var n := |routes| - 1;
      var before := Assemble(routes[..n], items[..n], config);
      var after := Placed(before, routes[n], items[n], config);
      assert Assemble(routes, items, config) == after;
      calc {
        multiset(Leaves(after));
        { PlacedAddsOneItem(before, routes[n], items[n], config);
          InsertedOnceMultiset(Leaves(before), Leaves(after), items[n]); }
        multiset(Leaves(before)) + multiset{items[n]};
        { AssembleKeepsEveryItem(routes[..n], items[..n], config); }
        multiset(items[..n]) + multiset{items[n]};
        { LastSplit(items); }
        multiset(items);
      }
    }
  }

  /** Sibling folder names stay distinct at every depth. */
  lemma {:induction false} AssembleWellFormed(routes: seq<Route>, items: seq<RouteItem>, config: Config)
    requires |items| == |routes| && ConfigUsable(config)
    ensures WellFormed(Assemble(routes, items, config))
    decreases |routes|
  {
    if routes != [] {
      var n := |routes| - 1;
      AssembleWellFormed(routes[..n], items[..n], config);
      PlacedKeepsWellFormed(Assemble(routes[..n], items[..n], config), routes[n], items[n], config);
    }
  }

  /** Without any folder policy, the collection is the flat list of the items
      in route order. */
  lemma {:induction false} AssembleWithoutPolicies(routes: seq<Route>, items: seq<RouteItem>, config: Config)
    requires |items| == |routes| && ConfigUsable(config) && config.folders == []
    ensures var flat := Assemble(routes, items, config);
      |flat| == |routes| && forall i :: 0 <= i < |routes| ==> flat[i] == Leaf(items[i], [])
    decreases |routes|
  {
    if routes != [] {
      var n := |routes| - 1;
      var before := Assemble(routes[..n], items[..n], config);
      AssembleWithoutPolicies(routes[..n], items[..n], config);
      assert GetFolderConfig(routes[n].uri, config.folders).None?;
      assert Assemble(routes, items, config) == before + [Leaf(items[n], [])];
    }
  }

  // =====================================================================
  // The shipped `api` policy
  // =====================================================================

  /** The `api` entry of the shipped configuration: two folder levels,
      global, two headers, a bearer token and both scripts. */
  const ApiPolicy: Policy := Policy(
    Some(2), Some(true),
    Some([("Accept", "application/json"), ("Authorization", "Bearer {{token}}")]),
    Some([(StrKey("type"), JString("bearer")),
          (StrKey("bearer"), List([Obj([("key", JString("token")), ("value", JString("{{token}}"))])]))]),
    Some("console.log('Sending request to auth endpoint...');"),
    Some("pm.test('Status is 200', function () {\n    pm.response.to.have.status(200);\n});"),
    false)

  lemma ApiPolicySelected(uri: string, rest: seq<(string, Policy)>)
    requires StartsWith(uri, "api")
    ensures GetFolderConfig(uri, [("api", ApiPolicy)] + rest) == Some(ApiPolicy)
  {
    var folders := [("api", ApiPolicy)] + rest;
    assert Keys(folders)[0] == "api";
    assert DetectFolderKey(uri, Keys(folders)) == Some("api");
    assert PolicyAt(folders, "api") == Some(ApiPolicy);
  }

  lemma ApiPolicyHeaders()
    ensures BuildHeaders([], Some(ApiPolicy))
      == [Header("Accept", "application/json"), Header("Authorization", "Bearer {{token}}")]
  {
    var r := BuildHeaders([], Some(ApiPolicy));
    assert IsGlobal(Some(ApiPolicy));
    assert |r| == 2;
  }

  lemma ApiPolicyEvents()
    ensures |EventsOf(Some(ApiPolicy))| == 2
    ensures EventsOf(Some(ApiPolicy))[0].listen == "prerequest" && EventsOf(Some(ApiPolicy))[1].listen == "test"
  {
    assert IsGlobal(Some(ApiPolicy));
    assert HasScript(ApiPolicy.prerequest) && HasScript(ApiPolicy.test);
    EventsCarryScripts(Some(ApiPolicy));
  }

  /** A route under `api/` with no tags of its own gets the policy's two
      headers, its bearer auth block and both scripts. */
  lemma ApiRouteItem(route: Route, config: Config, files: set<string>)
    requires RouteUsable(route) && ConfigUsable(config)
    requires StartsWith(route.uri, "api") && !ExtractNoAuth(route.doc)
    requires route.tags.headers == [] && route.tags.auth.None?
    requires |config.folders| > 0 && config.folders[0] == ("api", ApiPolicy)
    ensures var item := RouteItemOf(route, config, files);
      item.request.header == [Header("Accept", "application/json"), Header("Authorization", "Bearer {{token}}")]
      && item.request.auth == FormatAuth(ApiPolicy.auth.value)
      && |item.event| == 2 && item.event[0].listen == "prerequest" && item.event[1].listen == "test"
  {
    assert config.folders == [("api", ApiPolicy)] + config.folders[1..];
    ApiPolicySelected(route.uri, config.folders[1..]);
    ApiPolicyHeaders();
    ApiPolicyEvents();
    ItemHeadersAndAuth(route, config, files);
    assert EffectiveAuth(route, Some(ApiPolicy)) == ApiPolicy.auth;
  }

  lemma ApiFolderNames()
    ensures FolderNames("api/users/{id}", 2) == ["Api", "Users"]
  {
    ExplodeExample();
    FolderNamesOfSegments("api/users/{id}");
  }

  lemma FolderNamesOfSegments(uri: string)
    requires Explode('/', uri) == ["api", "users", "{id}"]
    ensures FolderNames(uri, 2) == ["Api", "Users"]
  {
    var names := FolderNames(uri, 2);
    UcfirstExamples();
    assert |names| == 2 && names[0] == "Api" && names[1] == "Users";
  }

  lemma UcfirstExamples()
    ensures Ucfirst("api") == "Api" && Ucfirst("users") == "Users"
  {
    assert ('a' as int - 32) as char == 'A';
    assert ('u' as int - 32) as char == 'U';
    assert Ucfirst("api") == ['A'] + "pi";
    assert Ucfirst("users") == ['U'] + "sers";
  }

  /** Into an empty tree, the walk creates one folder per name. */
  lemma AssignTwoLevels(item: RouteItem, auth: Option<Object>)
    ensures Assign([], ["Api", "Users"], item, auth) == [Folder("Api", auth, [Folder("Users", None, [Leaf(item, [])])])]
  {
    var names := ["Api", "Users"];
    assert names[1..] == ["Users"] && names[1..][1..] == [];
    assert Assign([], [], item, None) == [Leaf(item, [])];
    assert FirstNamed([], "Users").None? && FirstNamed([], "Api").None?;
    assert Assign([], ["Users"], item, None) == [] + [Folder("Users", None, Assign([], [], item, None))];
    var users := [Folder("Users", None, [Leaf(item, [])])];
    assert Assign([], ["Users"], item, None) == users;
    assert Assign([], names, item, auth) == [] + [Folder("Api", auth, users)];
    assert [] + [Folder("Api", auth, users)] == [Folder("Api", auth, users)];
  }

  /** `GET api/users/{id}` under the `api` policy lands in the folder Api,
      subfolder Users, and the Api folder carries the bearer auth block. */
  lemma ApiRoutePlacement(route: Route, item: RouteItem, config: Config)
    requires ConfigUsable(config)
    requires route.uri == "api/users/{id}"
    requires |config.folders| > 0 && config.folders[0] == ("api", ApiPolicy)
    ensures Placed([], route, item, config)
      == [Folder("Api", Some(FormatAuth(ApiPolicy.auth.value)), [Folder("Users", None, [Leaf(item, [])])])]
  {
    assert StartsWith(route.uri, "api") by {
      assert route.uri[..3] == "api";
    }
    assert config.folders == [("api", ApiPolicy)] + config.folders[1..];
    ApiPolicySelected(route.uri, config.folders[1..]);
    assert PolicyTruthy(ApiPolicy);
    ApiFolderNames();
    AssignTwoLevels(item, FolderAuth(ApiPolicy));
  }
}
