/** The cookie jar as fileee/auth.go, fileee/session.go and fileee/transport.go use it: cookies by name and
    path (sections 5.1.4, 5.3 and 5.4 of RFC 6265), queried at the base URL and at its "/api/f/". */
module CookieJar {
  import opened Optional

  datatype Key = Key(name: string, path: string)

  type Jar = map<Key, string>

  const EMPTY: Jar := map[]

  /** What a query returns and a session stores: names and values, no paths. */
  datatype Cookie = Cookie(name: string, value: string)

  /** One Set-Cookie; path "" when it carries none, expire for a negative MaxAge. */
  datatype SetCookie = SetCookie(name: string, value: string, path: string, expire: bool)

  /** The path of a URL with a host. */
  predicate IsUrlPath(p: string) { p == "" || p[0] == '/' }

  function RequestPath(p: string): string { if p == "" then "/" else p }

  /** The two places the client queries. */
  function BaseScope(base: string): string { RequestPath(base) }

  function ApiScope(base: string): string { base + "/api/f/" }

  predicate PathMatch(request: string, path: string) {
    && path != "" && path <= request
    && (path == request || path[|path| - 1] == '/' || request[|path|] == '/')
  }

  /** Section 5.1.4: whole segments only, so "/api/f" is seen at "/api/f" and "/api/f/x", not at "/api/fx". */
  lemma PathMatchMeaning(path: string, rest: string)
    requires path != "" && path[|path| - 1] != '/'
    ensures PathMatch(path, path) && PathMatch(path + "/" + rest, path)
    ensures rest != "" && rest[0] != '/' ==> !PathMatch(path + rest, path)
    ensures PathMatch(path + "/" + rest, path + "/")
  {
    assert path <= path + "/" + rest && (path + "/" + rest)[|path|] == '/';
    assert path + "/" <= path + "/" + rest;
  }

  function LastSlash(s: string): (i: int)
    ensures -1 <= i < |s| && (i >= 0 ==> s[i] == '/')
  {
    if s == "" then -1 else if s[|s| - 1] == '/' then |s| - 1 else LastSlash(s[..|s| - 1])
  }

  /** The path of a cookie that was set without one by a response to this request. */
  function DefaultPath(request: string): string {
    if request == "" || request[0] != '/' || LastSlash(request) <= 0 then "/" else request[..LastSlash(request)]
  }

  function KeyOf(c: SetCookie, defaultPath: string): Key {
    Key(c.name, if c.path == "" || c.path[0] != '/' then defaultPath else c.path)
  }

  function SetCookies(jar: Jar, defaultPath: string, cookies: seq<SetCookie>): Jar {
    if cookies == [] then jar
    else
      var n := |cookies| - 1;
      var before, c := SetCookies(jar, defaultPath, cookies[..n]), cookies[n];
      if c.expire then before - {KeyOf(c, defaultPath)} else before[KeyOf(c, defaultPath) := c.value]
  }

  // ---------------------------------------------------------------- queries

  /** The cookies a request sees, longer paths first; the order among cookies of one path is open. */
  predicate IsAnswer(jar: Jar, request: string, keys: seq<Key>) {
    && (forall k :: k in keys ==> k in jar && PathMatch(request, k.path))
    && (forall k :: k in jar && PathMatch(request, k.path) ==> k in keys)
    && Ordered(keys)
  }

  function Values(jar: Jar, keys: seq<Key>): seq<Cookie>
    requires forall k :: k in keys ==> k in jar
  {
    seq(|keys|, i requires 0 <= i < |keys| => Cookie(keys[i].name, jar[keys[i]]))
  }

  /** jar.Cookies(u) may return this list. */
  ghost predicate Lists(jar: Jar, request: string, cookies: seq<Cookie>) {
    exists keys :: IsAnswer(jar, request, keys) && cookies == Values(jar, keys)
  }

  function Matching(jar: Jar, request: string): set<Key> {
    set k | k in jar && PathMatch(request, k.path)
  }

  /** No cookie twice, and longer paths first. */
  predicate Ordered(keys: seq<Key>) {
    forall i, j :: 0 <= i < j < |keys| ==> keys[i] != keys[j] && |keys[i].path| >= |keys[j].path|
  }

  /** Some order in which jar.Cookies(u) returns what the request sees. */
  method Query(jar: Jar, request: string) returns (cookies: seq<Cookie>, ghost keys: seq<Key>)
    ensures Lists(jar, request, cookies)
    ensures IsAnswer(jar, request, keys) && cookies == Values(jar, keys)
  {
    keys, cookies := [], [];
    var rest := Matching(jar, request);
    while rest != {}
      invariant rest <= Matching(jar, request)
      invariant forall k :: k in keys <==> k in Matching(jar, request) - rest
      invariant Ordered(keys) && forall k, r :: k in keys && r in rest ==> |k.path| >= |r.path|
      invariant cookies == Values(jar, keys)
      decreases |rest|
    {
      var k := Longest(rest);
      OrderedSnoc(keys, k);
      keys, cookies := keys + [k], cookies + [Cookie(k.name, jar[k])];
      rest := rest - {k};
    }
  }

  lemma OrderedSnoc(keys: seq<Key>, k: Key)
    requires Ordered(keys) && k !in keys && forall l :: l in keys ==> |l.path| >= |k.path|
    ensures Ordered(keys + [k])
  {
    forall i | 0 <= i < |keys| ensures keys[i] in keys {}
  }

  method Longest(keys: set<Key>) returns (k: Key)
    requires keys != {}
    ensures k in keys && forall r :: r in keys ==> |r.path| <= |k.path|
  {
    k :| k in keys;
    var rest := keys - {k};
    while rest != {}
      invariant k in keys && rest <= keys
      invariant forall r :: r in keys && r !in rest ==> |r.path| <= |k.path|
      decreases |rest|
    {
      var r :| r in rest;
      if |r.path| > |k.path| {
        k := r;
      }
      rest := rest - {r};
    }
  }

  predicate Sees(jar: Jar, request: string, name: string, path: string) {
    Key(name, path) in jar && PathMatch(request, path)
  }

  /** The cookie of this name with the longest of the paths the request sees. */
  predicate IsLongest(jar: Jar, request: string, name: string, path: string) {
    && Sees(jar, request, name, path)
    && forall k :: k in jar && k.name == name && PathMatch(request, k.path) ==> |k.path| <= |path|
  }

  predicate IsShortest(jar: Jar, request: string, name: string, path: string) {
    && Sees(jar, request, name, path)
    && forall k :: k in jar && k.name == name && PathMatch(request, k.path) ==> |k.path| >= |path|
  }

  /** Every path a request sees is a prefix of its own: the longest prefix that has the cookie wins. */
  function LookupFrom(jar: Jar, request: string, name: string, n: nat): Option<string>
    requires n <= |request|
  {
    if n == 0 then None
    else if Sees(jar, request, name, request[..n]) then Some(jar[Key(name, request[..n])])
    else LookupFrom(jar, request, name, n - 1)
  }

  function Lookup(jar: Jar, request: string, name: string): Option<string> {
    LookupFrom(jar, request, name, |request|)
  }

  lemma {:induction false} LookupFromLongest(jar: Jar, request: string, name: string, path: string, n: nat)
    requires IsLongest(jar, request, name, path) && |path| <= n <= |request|
    ensures LookupFrom(jar, request, name, n) == Some(jar[Key(name, path)])
  {
    assert request[..|path|] == path;
    if Sees(jar, request, name, request[..n]) {
      assert Key(name, request[..n]).path == request[..n];
    } else {
      LookupFromLongest(jar, request, name, path, n - 1);
    }
  }

  lemma {:induction false} LookupFromSome(jar: Jar, request: string, name: string, n: nat) returns (path: string)
    requires n <= |request| && LookupFrom(jar, request, name, n).Some?
    ensures Sees(jar, request, name, path) && LookupFrom(jar, request, name, n) == Some(jar[Key(name, path)])
    ensures |path| <= n
    ensures forall k :: k in jar && k.name == name && PathMatch(request, k.path) && |k.path| <= n ==> |k.path| <= |path|
  {
    if Sees(jar, request, name, request[..n]) {
      path := request[..n];
    } else {
      path := LookupFromSome(jar, request, name, n - 1);
      forall k | k in jar && k.name == name && PathMatch(request, k.path) && |k.path| <= n
        ensures |k.path| <= |path|
      {
        assert k.path == request[..|k.path|] && k == Key(name, k.path);
      }
    }
  }

  /** A lookup gives the value under the longest path, and nothing exactly when no path has the name. */
  lemma LookupMeaning(jar: Jar, request: string, name: string)
    ensures Lookup(jar, request, name).Some? <==> exists path :: IsLongest(jar, request, name, path)
    ensures forall path :: IsLongest(jar, request, name, path) ==>
                             Lookup(jar, request, name) == Some(jar[Key(name, path)])
    ensures Lookup(jar, request, name).None? ==> forall path :: !Sees(jar, request, name, path)
  {
    forall path | IsLongest(jar, request, name, path)
      ensures Lookup(jar, request, name) == Some(jar[Key(name, path)])
    {
      LookupFromLongest(jar, request, name, path, |request|);
    }
    if Lookup(jar, request, name).Some? {
      var path := LookupFromSome(jar, request, name, |request|);
      assert IsLongest(jar, request, name, path);
    }
    forall path | Sees(jar, request, name, path) ensures Lookup(jar, request, name).Some? {
      SeenFrom(jar, request, name, path, |request|);
    }
  }

  lemma {:induction false} SeenFrom(jar: Jar, request: string, name: string, path: string, n: nat)
    requires Sees(jar, request, name, path) && |path| <= n <= |request|
    ensures LookupFrom(jar, request, name, n).Some?
  {
    if !Sees(jar, request, name, request[..n]) {
      assert request[..|path|] == path;
      SeenFrom(jar, request, name, path, n - 1);
    }
  }

  /** The loops of cookieValue and injectXSRF: the first cookie of this name in the list. In every order the
      jar may answer in, that is the one with the longest path. */
  method First(jar: Jar, request: string, name: string) returns (value: Option<string>)
    ensures value == Lookup(jar, request, name)
  {
    var cookies;
    ghost var keys;
    cookies, keys := Query(jar, request);
    LookupMeaning(jar, request, name);
    for i := 0 to |cookies|
      invariant forall j :: 0 <= j < i ==> keys[j].name != name
    {
      if cookies[i].name == name {
        FirstIsLongest(jar, request, name, keys, i);
        return Some(cookies[i].value);
      }
    }
    value := None;
  }

  lemma FirstIsLongest(jar: Jar, request: string, name: string, keys: seq<Key>, i: nat)
    requires IsAnswer(jar, request, keys) && i < |keys| && keys[i].name == name
    requires forall j :: 0 <= j < i ==> keys[j].name != name
    ensures IsLongest(jar, request, name, keys[i].path)
  {
    assert keys[i] in keys && keys[i] == Key(name, keys[i].path);
    forall k | k in jar && k.name == name && PathMatch(request, k.path) ensures |k.path| <= |keys[i].path| {
      assert k in keys;
      var j :| 0 <= j < |keys| && keys[j] == k;
    }
  }

  /** The value a reader of the list gets: that of the first cookie of this name. */
  function FirstValue(cookies: seq<Cookie>, name: string): Option<string> {
    if cookies == [] then None
    else if cookies[0].name == name then Some(cookies[0].value)
    else FirstValue(cookies[1..], name)
  }

  lemma {:induction false} FirstValueAt(cookies: seq<Cookie>, name: string, i: nat)
    requires i <= |cookies| && forall j :: 0 <= j < i ==> cookies[j].name != name
    ensures i < |cookies| && cookies[i].name == name ==> FirstValue(cookies, name) == Some(cookies[i].value)
    ensures i == |cookies| ==> FirstValue(cookies, name).None?
  {
    if i > 0 { FirstValueAt(cookies[1..], name, i - 1); }
  }

  /** In the Cookie header of a request, too, the longest path the request sees comes first. */
  lemma ListedFirst(jar: Jar, request: string, cookies: seq<Cookie>, name: string)
    requires Lists(jar, request, cookies)
    ensures FirstValue(cookies, name) == Lookup(jar, request, name)
  {
    var keys: seq<Key> :| IsAnswer(jar, request, keys) && cookies == Values(jar, keys);
    LookupMeaning(jar, request, name);
    var i := 0;
    while i < |keys| && keys[i].name != name
      invariant i <= |keys| && forall j :: 0 <= j < i ==> keys[j].name != name
    {
      i := i + 1;
    }
    FirstValueAt(cookies, name, i);
    if i < |keys| { FirstIsLongest(jar, request, name, keys, i); }
  }

  // ---------------------------------------------------------------- a response sets a cookie

  /** The request sees this path, and none of the same name that is longer. */
  predicate Wins(jar: Jar, request: string, k: Key) {
    && PathMatch(request, k.path)
    && forall l :: l in jar && l.name == k.name && PathMatch(request, l.path) ==> |l.path| <= |k.path|
  }

  lemma SetLookup(jar: Jar, request: string, k: Key, value: string)
    ensures Lookup(jar[k := value], request, k.name)
            == if Wins(jar, request, k) then Some(value) else Lookup(jar, request, k.name)
  {
    var after := jar[k := value];
    LookupMeaning(jar, request, k.name);
    LookupMeaning(after, request, k.name);
    if Wins(jar, request, k) {
      assert k == Key(k.name, k.path) && IsLongest(after, request, k.name, k.path);
    } else if !PathMatch(request, k.path) {
      SameLookup(jar, after, request, k.name, |request|);
    } else {
      var l :| l in jar && l.name == k.name && PathMatch(request, l.path) && |l.path| > |k.path|;
      assert Sees(jar, request, k.name, l.path) by { assert l == Key(l.name, l.path); }
      var path :| IsLongest(jar, request, k.name, path);
      assert IsLongest(after, request, k.name, path);
    }
  }

  predicate OnlyOfName(received: seq<SetCookie>, i: nat)
    requires i < |received|
  {
    forall j :: 0 <= j < |received| && j != i ==> received[j].name != received[i].name
  }

  lemma {:induction false} SetOthers(jar: Jar, path: string, received: seq<SetCookie>, k: Key)
    requires forall c :: c in received ==> c.name != k.name
    ensures var after := SetCookies(jar, path, received);
            (k in after <==> k in jar) && (k in jar ==> after[k] == jar[k])
  {
    if received != [] { SetOthers(jar, path, received[..|received| - 1], k); }
  }

  lemma {:induction false} SetOnly(jar: Jar, path: string, received: seq<SetCookie>, i: nat, k: Key)
    requires i < |received| && OnlyOfName(received, i) && !received[i].expire && k.name == received[i].name
    ensures var after, set1 := SetCookies(jar, path, received), jar[KeyOf(received[i], path) := received[i].value];
            (k in after <==> k in set1) && (k in set1 ==> after[k] == set1[k])
  {
    var n := |received| - 1;
    if i == n {
      SetOthers(jar, path, received[..n], k);
    } else {
      SetOnly(jar, path, received[..n], i, k);
    }
  }

  /** What the client reads under a name after a response that sets it once: the new value if no longer path
      hides it, else what it read before. */
  lemma ResponseLookup(jar: Jar, request: string, path: string, received: seq<SetCookie>, i: nat)
    requires i < |received| && OnlyOfName(received, i) && !received[i].expire
    ensures Lookup(SetCookies(jar, path, received), request, received[i].name)
            == if Wins(jar, request, KeyOf(received[i], path)) then Some(received[i].value)
               else Lookup(jar, request, received[i].name)
  {
    var k, name := KeyOf(received[i], path), received[i].name;
    var after, set1 := SetCookies(jar, path, received), jar[k := received[i].value];
    forall l: Key | l.name == name ensures (l in after <==> l in set1) && (l in set1 ==> after[l] == set1[l]) {
      SetOnly(jar, path, received, i, l);
    }
    NameLookup(after, set1, request, name, |request|);
    SetLookup(jar, request, k, received[i].value);
  }

  lemma {:induction false} NameLookup(a: Jar, b: Jar, request: string, name: string, n: nat)
    requires n <= |request|
    requires forall k: Key :: k.name == name ==> (k in a <==> k in b) && (k in b ==> a[k] == b[k])
    ensures LookupFrom(a, request, name, n) == LookupFrom(b, request, name, n)
  {
    if n > 0 {
      assert Key(name, request[..n]).name == name;
      NameLookup(a, b, request, name, n - 1);
    }
  }

  // ---------------------------------------------------------------- a stored session comes back

  /** SetCookies at the base URL with the cookies of a session: none carries a path. */
  function Pathless(cookies: seq<Cookie>): seq<SetCookie> {
    seq(|cookies|, i requires 0 <= i < |cookies| => SetCookie(cookies[i].name, cookies[i].value, "", false))
  }

  function Load(jar: Jar, base: string, cookies: seq<Cookie>): Jar {
    SetCookies(jar, DefaultPath(base), Pathless(cookies))
  }

  function LastValue(cookies: seq<Cookie>, name: string): Option<string> {
    if cookies == [] then None
    else if cookies[|cookies| - 1].name == name then Some(cookies[|cookies| - 1].value)
    else LastValue(cookies[..|cookies| - 1], name)
  }

  /** The last cookie of a name in the list decides, under the one default path. */
  lemma {:induction false} LoadMeaning(jar: Jar, path: string, cookies: seq<Cookie>, k: Key)
    ensures var loaded, v := SetCookies(jar, path, Pathless(cookies)), LastValue(cookies, k.name);
            if k.path == path && v.Some? then k in loaded && loaded[k] == v.value
            else (k in loaded <==> k in jar) && (k in jar ==> loaded[k] == jar[k])
  {
    if cookies != [] {
      var n := |cookies| - 1;
      assert Pathless(cookies)[..n] == Pathless(cookies[..n]);
      LoadMeaning(jar, path, cookies[..n], k);
    }
  }

  lemma SamePath(request: string, p: string, q: string)
    requires p <= request && q <= request && |p| == |q|
    ensures p == q
  {}

  /** The list ends, for every name, with the shortest path. */
  lemma {:induction false} LastIsShortest(jar: Jar, request: string, keys: seq<Key>, name: string, path: string)
    requires IsAnswer(jar, request, keys) && IsShortest(jar, request, name, path)
    ensures LastValue(Values(jar, keys), name) == Some(jar[Key(name, path)])
  {
    assert Key(name, path) in keys;
    var i :| 0 <= i < |keys| && keys[i] == Key(name, path);
    forall j | i < j < |keys| ensures keys[j].name != name {
      assert keys[j] in keys;
      if |keys[j].path| == |path| { SamePath(request, keys[j].path, path); }
    }
    LastValueAt(Values(jar, keys), name, i);
  }

  lemma {:induction false} LastValueAt(cookies: seq<Cookie>, name: string, i: nat)
    requires i < |cookies| && cookies[i].name == name
    requires forall j :: i < j < |cookies| ==> cookies[j].name != name
    ensures LastValue(cookies, name) == Some(cookies[i].value)
  {
    if i < |cookies| - 1 { LastValueAt(cookies[..|cookies| - 1], name, i); }
  }

  lemma {:induction false} NoLastValue(cookies: seq<Cookie>, name: string)
    requires forall c :: c in cookies ==> c.name != name
    ensures LastValue(cookies, name).None?
  {
    if cookies != [] { NoLastValue(cookies[..|cookies| - 1], name); }
  }

  lemma {:induction false} ShortestExists(jar: Jar, request: string, name: string, path: string) returns (s: string)
    requires Sees(jar, request, name, path)
    ensures IsShortest(jar, request, name, s)
    decreases |path|
  {
    if k :| k in jar && k.name == name && PathMatch(request, k.path) && |k.path| < |path| {
      assert k == Key(name, k.path);
      s := ShortestExists(jar, request, name, k.path);
    } else {
      s := path;
    }
  }

  /** What loading at the base URL stores is seen at "/api/f/". */
  lemma DefaultPathSeen(base: string)
    requires IsUrlPath(base)
    ensures PathMatch(ApiScope(base), DefaultPath(base))
  {}

  /** A session saved from one jar and loaded into a new one: every name has the value it had under the
      shortest path, in whatever order the jar had answered. */
  lemma RestoredLookup(jar: Jar, base: string, cookies: seq<Cookie>, name: string)
    requires IsUrlPath(base) && Lists(jar, ApiScope(base), cookies)
    ensures Lookup(Load(EMPTY, base, cookies), ApiScope(base), name) == LastValue(cookies, name)
    ensures forall path :: IsShortest(jar, ApiScope(base), name, path) ==>
                             LastValue(cookies, name) == Some(jar[Key(name, path)])
    ensures (forall path :: !Sees(jar, ApiScope(base), name, path)) ==> LastValue(cookies, name).None?
  {
    var request, at := ApiScope(base), DefaultPath(base);
    var keys: seq<Key> :| IsAnswer(jar, request, keys) && cookies == Values(jar, keys);
    forall path | IsShortest(jar, request, name, path) ensures LastValue(cookies, name) == Some(jar[Key(name, path)]) {
      LastIsShortest(jar, request, keys, name, path);
    }
    if forall path :: !Sees(jar, request, name, path) {
      forall c | c in cookies ensures c.name != name {
        var i :| 0 <= i < |cookies| && cookies[i] == c;
        assert keys[i] in keys && keys[i] == Key(keys[i].name, keys[i].path);
        assert !Sees(jar, request, name, keys[i].path);
      }
      NoLastValue(cookies, name);
    }
    LoadedLookup(base, cookies, name);
  }

  lemma LoadedLookup(base: string, cookies: seq<Cookie>, name: string)
    requires IsUrlPath(base)
    ensures Lookup(Load(EMPTY, base, cookies), ApiScope(base), name) == LastValue(cookies, name)
  {
    var request, at := ApiScope(base), DefaultPath(base);
    var loaded := Load(EMPTY, base, cookies);
    forall k | k in loaded && k.name == name ensures k.path == at && LastValue(cookies, name).Some? {
      LoadMeaning(EMPTY, at, cookies, k);
    }
    LoadMeaning(EMPTY, at, cookies, Key(name, at));
    DefaultPathSeen(base);
    LookupMeaning(loaded, request, name);
    if LastValue(cookies, name).Some? {
      assert IsLongest(loaded, request, name, at);
    }
  }

  /** The values of this name under the longest and the shortest path the request sees are the same. */
  predicate EndsAgree(jar: Jar, request: string, name: string) {
    forall k, l :: k in jar && l in jar && k.name == name && l.name == name
                   && IsLongest(jar, request, name, k.path) && IsShortest(jar, request, name, l.path)
                   ==> jar[k] == jar[l]
  }

  /** A new process sees the cookies the old one saw if and only if, for every name, the longest and the
      shortest path it occurs under hold the same value. */
  lemma RestoreIff(jar: Jar, base: string, cookies: seq<Cookie>)
    requires IsUrlPath(base) && Lists(jar, ApiScope(base), cookies)
    ensures (forall name :: Lookup(Load(EMPTY, base, cookies), ApiScope(base), name)
                            == Lookup(jar, ApiScope(base), name))
            <==> (forall name :: EndsAgree(jar, ApiScope(base), name))
  {
    forall name
      ensures Lookup(Load(EMPTY, base, cookies), ApiScope(base), name) == Lookup(jar, ApiScope(base), name)
              <==> EndsAgree(jar, ApiScope(base), name)
    {
      RestoreIffAt(jar, base, cookies, name);
    }
  }

  lemma RestoreIffAt(jar: Jar, base: string, cookies: seq<Cookie>, name: string)
    requires IsUrlPath(base) && Lists(jar, ApiScope(base), cookies)
    ensures Lookup(Load(EMPTY, base, cookies), ApiScope(base), name) == Lookup(jar, ApiScope(base), name)
            <==> EndsAgree(jar, ApiScope(base), name)
  {
    var request := ApiScope(base);
    RestoredLookup(jar, base, cookies, name);
    LookupMeaning(jar, request, name);
    if Lookup(jar, request, name).Some? {
      var p :| IsLongest(jar, request, name, p);
      var q := ShortestExists(jar, request, name, p);
      forall k | k in jar && k.name == name && IsLongest(jar, request, name, k.path) ensures k == Key(name, p) {
        SamePath(request, k.path, p);
      }
      forall k | k in jar && k.name == name && IsShortest(jar, request, name, k.path) ensures k == Key(name, q) {
        SamePath(request, k.path, q);
      }
    }
  }

  // ---------------------------------------------------------------- clearing the jar

  function BelowRoot(jar: Jar): Jar {
    map k | k in jar && k.path != "/" :: jar[k]
  }

  /** A loop over the cookies seen at the base URL that expires each name under "/". */
  method ClearJar(jar: Jar, base: string) returns (cleared: Jar)
    requires IsUrlPath(base)
    ensures cleared == BelowRoot(jar)
  {
    var current;
    ghost var keys;
    current, keys := Query(jar, BaseScope(base));
    var expired: seq<SetCookie> := [];
    for i := 0 to |current|
      invariant |expired| == i
      invariant forall j :: 0 <= j < i ==> expired[j] == SetCookie(current[j].name, "", "/", true)
    {
      expired := expired + [SetCookie(current[i].name, "", "/", true)];
    }
    ExpiredAll(jar, base, keys, expired);
    cleared := SetCookies(jar, DefaultPath(base), expired);
  }

  lemma ExpiredAll(jar: Jar, base: string, keys: seq<Key>, expired: seq<SetCookie>)
    requires IsUrlPath(base) && IsAnswer(jar, BaseScope(base), keys) && |expired| == |keys|
    requires forall j :: 0 <= j < |keys| ==> expired[j] == SetCookie(keys[j].name, "", "/", true)
    ensures SetCookies(jar, DefaultPath(base), expired) == BelowRoot(jar)
  {
    var left := SetCookies(jar, DefaultPath(base), expired);
    forall k ensures k in left <==> k in jar && k.path != "/" ensures k in left ==> left[k] == jar[k] {
      ExpireMeaning(jar, DefaultPath(base), expired, k);
      if k in jar && k.path == "/" {
        assert k in keys;
        var i :| 0 <= i < |keys| && keys[i] == k;
        assert expired[i].name == k.name;
      }
    }
  }

  lemma {:induction false} ExpireMeaning(jar: Jar, path: string, expired: seq<SetCookie>, k: Key)
    requires forall c :: c in expired ==> c.expire && c.path == "/"
    ensures var left := SetCookies(jar, path, expired);
            && (k in left <==>
                  k in jar && !(k.path == "/" && exists i :: 0 <= i < |expired| && expired[i].name == k.name))
            && (k in left ==> left[k] == jar[k])
  {
    if expired != [] {
      ExpireMeaning(jar, path, expired[..|expired| - 1], k);
    }
  }

  /** After clearing, a name is still found exactly when it was under a path other than "/"; then it has the
      value it had before. */
  lemma ClearedLookup(jar: Jar, base: string, name: string)
    requires IsUrlPath(base)
    ensures Lookup(BelowRoot(jar), ApiScope(base), name)
            == if exists path :: IsLongest(jar, ApiScope(base), name, path) && path != "/"
               then Lookup(jar, ApiScope(base), name) else None
  {
    var request, cleared := ApiScope(base), BelowRoot(jar);
    LookupMeaning(jar, request, name);
    LookupMeaning(cleared, request, name);
    if path :| IsLongest(jar, request, name, path) && path != "/" {
      assert IsLongest(cleared, request, name, path);
    }
  }

  // ---------------------------------------------------------------- where the server's cookies land

  lemma {:induction false} SetElsewhere(jar: Jar, path: string, cookies: seq<SetCookie>, k: Key)
    requires k.path != path && forall c :: c in cookies ==> c.path == ""
    ensures var after := SetCookies(jar, path, cookies);
            (k in after <==> k in jar) && (k in jar ==> after[k] == jar[k])
  {
    if cookies != [] {
      SetElsewhere(jar, path, cookies[..|cookies| - 1], k);
    }
  }

  /** Two jars that agree on what a request sees answer it alike. */
  predicate SameSeen(a: Jar, b: Jar, request: string) {
    && (forall k :: k in a && PathMatch(request, k.path) ==> k in b && b[k] == a[k])
    && (forall k :: k in b && PathMatch(request, k.path) ==> k in a)
  }

  lemma {:induction false} SameLookup(a: Jar, b: Jar, request: string, name: string, n: nat)
    requires SameSeen(a, b, request) && n <= |request|
    ensures LookupFrom(a, request, name, n) == LookupFrom(b, request, name, n)
  {
    if n > 0 {
      assert Key(name, request[..n]).path == request[..n];
      SameLookup(a, b, request, name, n - 1);
    }
  }

  lemma SameLists(a: Jar, b: Jar, request: string, list: seq<Cookie>)
    requires SameSeen(a, b, request) && Lists(a, request, list)
    ensures Lists(b, request, list)
  {
    var keys: seq<Key> :| IsAnswer(a, request, keys) && list == Values(a, keys);
    assert IsAnswer(b, request, keys);
    forall i | 0 <= i < |keys| ensures b[keys[i]] == a[keys[i]] {
      assert keys[i] in keys;
    }
    assert list == Values(b, keys);
  }

  lemma UnseenPath(jar: Jar, request: string, path: string, cookies: seq<SetCookie>, name: string)
    requires !PathMatch(request, path) && forall c :: c in cookies ==> c.path == ""
    ensures var after := SetCookies(jar, path, cookies);
            && Lookup(after, request, name) == Lookup(jar, request, name)
            && forall list :: Lists(after, request, list) <==> Lists(jar, request, list)
  {
    var after := SetCookies(jar, path, cookies);
    forall k: Key | PathMatch(request, k.path) ensures (k in after <==> k in jar) && (k in jar ==> after[k] == jar[k]) {
      SetElsewhere(jar, path, cookies, k);
    }
    assert SameSeen(after, jar, request) && SameSeen(jar, after, request);
    SameLookup(after, jar, request, name, |request|);
    forall list ensures Lists(after, request, list) <==> Lists(jar, request, list) {
      if Lists(after, request, list) { SameLists(after, jar, request, list); }
      if Lists(jar, request, list) { SameLists(jar, after, request, list); }
    }
  }

  predicate NoSlash(s: string) {
    forall i :: 0 <= i < |s| ==> s[i] != '/'
  }

  lemma {:induction false} LastSlashOf(front: string, leaf: string)
    requires NoSlash(leaf)
    ensures LastSlash(front + "/" + leaf) == |front|
  {
    var s := front + "/" + leaf;
    if leaf == "" {
      assert s[|s| - 1] == '/';
    } else {
      var n := |leaf| - 1;
      assert s[..|s| - 1] == front + "/" + leaf[..n] && s[|s| - 1] == leaf[n];
      LastSlashOf(front, leaf[..n]);
    }
  }

  lemma DefaultPathOf(front: string, leaf: string)
    requires front != "" && front[0] == '/' && NoSlash(leaf)
    ensures DefaultPath(front + "/" + leaf) == front
  {
    LastSlashOf(front, leaf);
    assert (front + "/" + leaf)[..|front|] == front;
  }

  /** A cookie set without a path by start, existent, login, user-session or logout is seen at "/api/f/", but
      not at the base URL: clearing the jar leaves it, and its name is still found. */
  lemma HandshakeCookies(jar: Jar, base: string, leaf: string, name: string)
    requires IsUrlPath(base) && NoSlash(leaf)
    ensures var path := DefaultPath(base + "/api/f/" + leaf);
            && PathMatch(ApiScope(base), path) && !PathMatch(BaseScope(base), path) && path != "/"
            && (Key(name, path) in jar ==> Lookup(BelowRoot(jar), ApiScope(base), name).Some?)
  {
    assert base + "/api/f/" + leaf == (base + "/api/f") + "/" + leaf;
    DefaultPathOf(base + "/api/f", leaf);
    assert ApiScope(base)[..|base + "/api/f"|] == base + "/api/f";
    LookupMeaning(BelowRoot(jar), ApiScope(base), name);
    assert Key(name, base + "/api/f") in jar ==> Sees(BelowRoot(jar), ApiScope(base), name, base + "/api/f");
  }

  lemma SetOne(jar: Jar, path: string, name: string, value: string)
    ensures SetCookies(jar, path, [SetCookie(name, value, "", false)]) == jar[Key(name, path) := value]
  {
    assert [SetCookie(name, value, "", false)][..0] == [];
  }

  /** A session with one value was loaded, then a login set another one without a path. */
  function LoadedThenLogin(base: string, name: string, a: string, b: string): Jar {
    SetCookies(Load(EMPTY, base, [Cookie(name, a)]), DefaultPath(base + "/api/f/login"),
               [SetCookie(name, b, "", false)])
  }

  lemma LoadedThenLoginIs(base: string, name: string, a: string, b: string)
    requires IsUrlPath(base)
    ensures LoadedThenLogin(base, name, a, b)
            == map[Key(name, DefaultPath(base)) := a, Key(name, base + "/api/f") := b]
    ensures |DefaultPath(base)| < |base + "/api/f"|
  {
    assert Pathless([Cookie(name, a)]) == [SetCookie(name, a, "", false)];
    SetOne(EMPTY, DefaultPath(base), name, a);
    assert base + "/api/f/login" == base + "/api/f" + "/" + "login";
    DefaultPathOf(base + "/api/f", "login");
    SetOne(map[Key(name, DefaultPath(base)) := a], base + "/api/f", name, b);
  }

  lemma TwoPaths(request: string, name: string, long: string, short: string, a: string, b: string)
    requires PathMatch(request, long) && PathMatch(request, short) && |short| < |long|
    ensures IsLongest(map[Key(name, short) := a, Key(name, long) := b], request, name, long)
    ensures IsShortest(map[Key(name, short) := a, Key(name, long) := b], request, name, short)
  {}

  /** This process then uses the new value, and the next one gets the old value back. */
  lemma RestoreGoesBack(base: string, name: string, a: string, b: string, cookies: seq<Cookie>)
    requires IsUrlPath(base) && Lists(LoadedThenLogin(base, name, a, b), ApiScope(base), cookies)
    ensures Lookup(LoadedThenLogin(base, name, a, b), ApiScope(base), name) == Some(b)
    ensures Lookup(Load(EMPTY, base, cookies), ApiScope(base), name) == Some(a)
  {
    var jar, api, at := LoadedThenLogin(base, name, a, b), base + "/api/f", DefaultPath(base);
    LoadedThenLoginIs(base, name, a, b);
    DefaultPathSeen(base);
    assert PathMatch(ApiScope(base), api);
    TwoPaths(ApiScope(base), name, api, at, a, b);
    LookupMeaning(jar, ApiScope(base), name);
    RestoredLookup(jar, base, cookies, name);
  }

  /** The path of a cookie that token/login sets. */
  function TokenLoginKey(base: string, c: SetCookie): Key {
    KeyOf(c, DefaultPath(base + "/api/f/token/login"))
  }

  /** docs/API.md expects the client to read the token that token/login just set. If it is a new one, it does
      if and only if "/api/f/" sees the path of the new cookie and no longer path has one of that name. */
  lemma FreshTokenIff(jar: Jar, base: string, received: seq<SetCookie>, i: nat)
    requires i < |received| && OnlyOfName(received, i) && !received[i].expire
    ensures var c, after := received[i], SetCookies(jar, DefaultPath(base + "/api/f/token/login"), received);
            Lookup(jar, ApiScope(base), c.name) != Some(c.value) ==>
              (Lookup(after, ApiScope(base), c.name) == Some(c.value)
               <==> Wins(jar, ApiScope(base), TokenLoginKey(base, c)))
  {
    ResponseLookup(jar, ApiScope(base), DefaultPath(base + "/api/f/token/login"), received, i);
  }

  /** Of the two paths a server would choose: "/" works unless a longer path has the name, as it does once a
      handshake endpoint set one without a path; no path at all never works. */
  lemma FreshTokenPaths(jar: Jar, base: string, name: string, value: string)
    requires IsUrlPath(base)
    ensures !Wins(jar, ApiScope(base), TokenLoginKey(base, SetCookie(name, value, "", false)))
    ensures Wins(jar, ApiScope(base), TokenLoginKey(base, SetCookie(name, value, "/", false)))
            <==> forall k :: k in jar && k.name == name && k.path != "/" ==> !PathMatch(ApiScope(base), k.path)
  {
    assert base + "/api/f/token/login" == base + "/api/f/token" + "/" + "login";
    DefaultPathOf(base + "/api/f/token", "login");
    forall k | k in jar && k.name == name && PathMatch(ApiScope(base), k.path)
      ensures |k.path| <= 1 <==> k.path == "/"
    {
      assert k.path[0] == ApiScope(base)[0];
    }
  }

  /** A cookie set without a path by token/login lands under "/api/f/token", where nothing looks for it: the
      XSRF header, the token and the stored session are the old ones. */
  lemma TokenLoginCookiesUnseen(jar: Jar, base: string, cookies: seq<SetCookie>, name: string)
    requires IsUrlPath(base) && forall c :: c in cookies ==> c.path == ""
    ensures var after := SetCookies(jar, DefaultPath(base + "/api/f/token/login"), cookies);
            && Lookup(after, ApiScope(base), name) == Lookup(jar, ApiScope(base), name)
            && forall list :: Lists(after, ApiScope(base), list) <==> Lists(jar, ApiScope(base), list)
  {
    var path, request := base + "/api/f/token", ApiScope(base);
    assert base + "/api/f/token/login" == path + "/" + "login";
    DefaultPathOf(path, "login");
    assert !PathMatch(request, path);
    UnseenPath(jar, request, path, cookies, name);
  }
}
