/**
 * Route permissions: the catalogue of discovered routes, the path the guard resolves for a request,
 * and the index by method and path through which a role's permissions are looked up.
 */
module PermissionIndex {
  import opened Prelude
  import ValidatePath

  // ---- joining paths ----------------------------------------------------------------------

  function DropSlashes(s: string): string {
    if s != [] && s[0] == '/' then DropSlashes(s[1..]) else s
  }

  function DropLastSlashes(s: string): string {
    if s != [] && s[|s| - 1] == '/' then DropLastSlashes(s[..|s| - 1]) else s
  }

  function Strip(s: string): string { DropLastSlashes(DropSlashes(s)) }

  function Part(s: string): seq<string> {
    if Strip(s) == [] then [] else [Strip(s)]
  }

  function Parts(segments: seq<string>): seq<string> {
    if segments == [] then [] else Part(segments[0]) + Parts(segments[1..])
  }

  function Joined(parts: seq<string>): string {
    if parts == [] then [] else if |parts| == 1 then parts[0] else parts[0] + "/" + Joined(parts[1..])
  }

  function Join(segments: seq<string>): string { "/" + Joined(Parts(segments)) }

  /** No slash at either end. */
  predicate Trimmed(s: string) {
    s != [] && s[0] != '/' && s[|s| - 1] != '/'
  }

  /** One leading slash, none at the end. */
  predicate Rooted(s: string) {
    s != [] && s[0] == '/' && Trimmed(s[1..])
  }

  /** Stripping ends at a trimmed string; it removes nothing only from a trimmed or empty one. */
  lemma StripTrims(s: string)
    ensures Strip(s) == [] || Trimmed(Strip(s))
    ensures |Strip(s)| <= |s| && (Strip(s) == s <==> s == [] || Trimmed(s)) && (|Strip(s)| == |s| ==> Strip(s) == s)
  {
    FrontTrims(s);
    BackTrims(DropSlashes(s));
  }

  lemma {:induction false} FrontTrims(s: string)
    ensures var t := DropSlashes(s);
            && |t| <= |s| && (|t| == |s| ==> t == s) && (t == [] || t[0] != '/')
            && (s != [] && s[0] != '/' ==> t == s)
  {
    if s != [] && s[0] == '/' {
      FrontTrims(s[1..]);
    }
  }

  lemma {:induction false} BackTrims(s: string)
    ensures var t := DropLastSlashes(s);
            && t <= s && (t == [] || t[|t| - 1] != '/') && (s != [] && s[|s| - 1] != '/' ==> t == s)
  {
    if s != [] && s[|s| - 1] == '/' {
      BackTrims(s[..|s| - 1]);
    }
  }

  lemma PartsOf(a: string, b: string, c: string)
    ensures Parts([a, b]) == Part(a) + Part(b)
    ensures Parts([a, b, c]) == Part(a) + Part(b) + Part(c)
  {
    assert [a, b, c][1..] == [b, c] && [a, b][1..] == [b] && [b, c][1..] == [c] && [b][1..] == [] && [c][1..] == [];
    assert Parts([b]) == Part(b) + Parts([]) && Parts([c]) == Part(c) + Parts([]);
    assert Parts([b]) == Part(b) && Parts([c]) == Part(c);
    assert Parts([b, c]) == Part(b) + Part(c);
    assert Part(a) + (Part(b) + Part(c)) == Part(a) + Part(b) + Part(c);
  }

  lemma JoinTwo(a: string, b: string)
    ensures var p, q := Strip(a), Strip(b);
            Join([a, b]) == "/" + if p == [] then q else if q == [] then p else p + "/" + q
  {
    PartsOf(a, b, []);
    var parts := Parts([a, b]);
    if Strip(a) == [] {
      assert parts == Part(b);
    } else if Strip(b) == [] {
      assert parts == Part(a);
    } else {
      assert parts == [Strip(a), Strip(b)] && parts[1..] == [Strip(b)];
      assert Joined(parts) == Strip(a) + "/" + Strip(b);
    }
  }

  lemma JoinThree(a: string, b: string, c: string)
    ensures Strip(a) != [] && Strip(b) != [] && Strip(c) != [] ==>
              Join([a, b, c]) == "/" + (Strip(a) + "/" + (Strip(b) + "/" + Strip(c)))
    ensures Strip(a) == [] ==> Join([a, b, c]) == Join([b, c])
    ensures Strip(a) != [] && Strip(b) == [] ==> Join([a, b, c]) == Join([a, c])
    ensures Strip(a) != [] && Strip(b) != [] && Strip(c) == [] ==> Join([a, b, c]) == Join([a, b])
  {
    PartsOf(a, b, c);
    PartsOf(b, c, []);
    PartsOf(a, c, []);
    if Strip(a) != [] && Strip(b) != [] && Strip(c) != [] {
      assert Parts([a, b, c])[1..] == [Strip(b), Strip(c)] && [Strip(b), Strip(c)][1..] == [Strip(c)];
      assert Joined([Strip(b), Strip(c)]) == Strip(b) + "/" + Strip(c);
      assert Strip(b) + "/" + Strip(c) == Strip(b) + ("/" + Strip(c));
    }
  }

  // ---- routes -----------------------------------------------------------------------------

  const VALID_METHODS: set<string> := {"GET", "POST", "PUT", "DELETE", "PATCH", "OPTIONS", "HEAD"}

  /** An Express route path; the catalogue reads an array by its first entry, a pattern by its text. */
  datatype RoutePath = Single(text: string) | OneOf(first: string, others: seq<string>) | Pattern(source: string)

  datatype Flag = Flag(verb: string, on: bool)

  datatype Route = Route(path: RoutePath, flags: Option<seq<Flag>>)

  /** Layers of the router's stack; `None` is a layer without a route. */
  datatype BaseRoute = BaseRoute(version: string, path: string, tag: string, stack: seq<Option<Route>>)

  datatype AvailableRoute = AvailableRoute(name: string, path: string, verb: string, tag: string)

  function UpperChar(c: char): char {
    if 'a' <= c <= 'z' then 'A' + (c - 'a') else c
  }

  function Upper(s: string): string {
    seq(|s|, i requires 0 <= i < |s| => UpperChar(s[i]))
  }

  function PathText(path: RoutePath): string {
    match path
    case Single(text) => text
    case OneOf(first, _) => first
    case Pattern(source) => source
  }

  function Key(verb: string, path: string): string { verb + "-" + path }

  // ---- discovery --------------------------------------------------------------------------

  function Entry(verb: string, path: string, tag: string): AvailableRoute {
    AvailableRoute(verb + "+" + path, path, verb, tag)
  }

  predicate Kept(flag: Flag) {
    flag.verb != "_all" && flag.on && Upper(flag.verb) in VALID_METHODS
  }

  function FlagRoutes(flags: seq<Flag>, path: string, tag: string): seq<AvailableRoute> {
    if flags == [] then [] else
      (if Kept(flags[0]) then [Entry(Upper(flags[0].verb), path, tag)] else []) + FlagRoutes(flags[1..], path, tag)
  }

  function LayerRoutes(layer: Option<Route>, prefix: string, tag: string): seq<AvailableRoute> {
    match layer
    case Some(Route(path, Some(flags))) => FlagRoutes(flags, Join([prefix, PathText(path)]), tag)
    case _ => []
  }

  function StackRoutes(stack: seq<Option<Route>>, prefix: string, tag: string): seq<AvailableRoute> {
    if stack == [] then [] else
      LayerRoutes(stack[0], prefix, tag) + StackRoutes(stack[1..], prefix, tag)
  }

  function BaseRoutes(apiPrefix: string, base: BaseRoute): seq<AvailableRoute> {
    StackRoutes(base.stack, Join([apiPrefix, base.version, base.path]), base.tag)
  }

  function AllRoutes(apiPrefix: string, bases: seq<BaseRoute>): seq<AvailableRoute> {
    if bases == [] then [] else
      BaseRoutes(apiPrefix, bases[0]) + AllRoutes(apiPrefix, bases[1..])
  }

  function KeyOf(route: AvailableRoute): string { Key(route.verb, route.path) }

  function Keys(routes: seq<AvailableRoute>): set<string> {
    set route | route in routes :: KeyOf(route)
  }

  /** The first route of each key, in order. */
  function Firsts(routes: seq<AvailableRoute>): seq<AvailableRoute> {
    if routes == [] then [] else
      var (init, last) := (routes[..|routes| - 1], routes[|routes| - 1]);
      if KeyOf(last) in Keys(init) then Firsts(init) else Firsts(init) + [last]
  }

  method CollectFlags(flags: seq<Flag>, path: string, tag: string, collected: seq<AvailableRoute>)
    returns (all: seq<AvailableRoute>)
    ensures all == collected + FlagRoutes(flags, path, tag)
  {
    all := collected;
    for i := 0 to |flags|
      invariant all + FlagRoutes(flags[i..], path, tag) == collected + FlagRoutes(flags, path, tag)
    {
      assert flags[i..][1..] == flags[i + 1..];
      if flags[i].verb == "_all" || !flags[i].on || Upper(flags[i].verb) !in VALID_METHODS {
        continue;
      }
      all := all + [Entry(Upper(flags[i].verb), path, tag)];
    }
  }

  method CollectLayer(layer: Option<Route>, prefix: string, tag: string, collected: seq<AvailableRoute>)
    returns (all: seq<AvailableRoute>)
    ensures all == collected + LayerRoutes(layer, prefix, tag)
  {
    if layer.None? || layer.value.flags.None? {
      return collected;
    }
    var path := Join([prefix, PathText(layer.value.path)]);
    all := CollectFlags(layer.value.flags.value, path, tag, collected);
  }

  lemma StackRoutesMore(stack: seq<Option<Route>>, i: nat, prefix: string, tag: string)
    requires i < |stack|
    ensures StackRoutes(stack[i..], prefix, tag)
         == LayerRoutes(stack[i], prefix, tag) + StackRoutes(stack[i + 1..], prefix, tag)
  {
  }

  method CollectRoutes(stack: seq<Option<Route>>, prefix: string, tag: string, collected: seq<AvailableRoute>)
    returns (all: seq<AvailableRoute>)
    ensures all == collected + StackRoutes(stack, prefix, tag)
  {
    all := collected;
    for i := 0 to |stack|
      invariant all + StackRoutes(stack[i..], prefix, tag) == collected + StackRoutes(stack, prefix, tag)
    {
      StackRoutesMore(stack, i, prefix, tag);
      Regroup(all, LayerRoutes(stack[i], prefix, tag), StackRoutes(stack[i + 1..], prefix, tag));
      all := CollectLayer(stack[i], prefix, tag, all);
    }
  }

  method CollectBase(apiPrefix: string, base: BaseRoute, collected: seq<AvailableRoute>)
    returns (all: seq<AvailableRoute>)
    ensures all == collected + BaseRoutes(apiPrefix, base)
  {
    var mount := Join([apiPrefix, base.version, base.path]);
    all := CollectRoutes(base.stack, mount, base.tag, collected);
  }

  method CollectAll(apiPrefix: string, bases: seq<BaseRoute>) returns (all: seq<AvailableRoute>)
    ensures all == AllRoutes(apiPrefix, bases)
  {
    all := [];
    var i := 0;
    while i < |bases|
      invariant 0 <= i <= |bases|
      invariant all + AllRoutes(apiPrefix, bases[i..]) == AllRoutes(apiPrefix, bases)
    {
      AllRoutesMore(apiPrefix, bases, i);
      Regroup(all, BaseRoutes(apiPrefix, bases[i]), AllRoutes(apiPrefix, bases[i + 1..]));
      all := CollectBase(apiPrefix, bases[i], all);
      i := i + 1;
    }
  }

  lemma AllRoutesMore(apiPrefix: string, bases: seq<BaseRoute>, i: nat)
    requires i < |bases|
    ensures AllRoutes(apiPrefix, bases[i..]) == BaseRoutes(apiPrefix, bases[i]) + AllRoutes(apiPrefix, bases[i + 1..])
  {
  }

  method DiscoverRoutes(apiPrefix: string, bases: seq<BaseRoute>) returns (catalogue: seq<AvailableRoute>)
    ensures catalogue == Firsts(AllRoutes(apiPrefix, bases))
  {
    var all := CollectAll(apiPrefix, bases);
    catalogue := KeepFirsts(all);
  }

  method KeepFirsts(all: seq<AvailableRoute>) returns (kept: seq<AvailableRoute>)
    ensures kept == Firsts(all)
  {
    var seen: set<string> := {};
    kept := [];
    for i := 0 to |all|
      invariant kept == Firsts(all[..i]) && seen == Keys(all[..i])
    {
      assert all[..i + 1][..i] == all[..i];
      assert Keys(all[..i + 1]) == Keys(all[..i]) + {KeyOf(all[i])};
      if KeyOf(all[i]) in seen {
        continue;
      }
      seen := seen + {KeyOf(all[i])};
      kept := kept + [all[i]];
    }
    assert all[..|all|] == all;
  }

  // ---- the guard --------------------------------------------------------------------------

  /** The path a request resolves to on a route with a string path. */
  function Resolve(baseUrl: string, path: string): string {
    baseUrl + if path == "/" then "" else path
  }

  datatype Permission = Permission(verb: string, path: string)

  datatype Role = Role(name: string, isActive: bool, permissions: seq<Permission>)

  predicate ValidPermission(p: Permission) {
    p.verb in VALID_METHODS && p.path != [] && p.path[0] == '/'
  }

  function KeyBy(permissions: seq<Permission>): map<string, Permission> {
    if permissions == [] then map[] else
      var last := permissions[|permissions| - 1];
      KeyBy(permissions[..|permissions| - 1])[Key(last.verb, last.path) := last]
  }

  /** The linear search the index stands for. */
  predicate Allows(role: Role, verb: string, path: string) {
    role.isActive && exists p | p in role.permissions :: p.verb == verb && p.path == path
  }

  class Request {
    const verb: string
    const baseUrl: string
    const routePath: string
    var role: Option<Role>

    constructor (verb: string, baseUrl: string, routePath: string)
      ensures this.verb == verb && this.baseUrl == baseUrl && this.routePath == routePath && role == None
    {
      this.verb, this.baseUrl, this.routePath, this.role := verb, baseUrl, routePath, None;
    }
  }

  method BuildIndex(permissions: seq<Permission>) returns (index: map<string, Permission>)
    ensures index == KeyBy(permissions)
  {
    index := map[];
    for i := 0 to |permissions|
      invariant index == KeyBy(permissions[..i])
    {
      assert permissions[..i + 1][..i] == permissions[..i];
      index := index[Key(permissions[i].verb, permissions[i].path) := permissions[i]];
    }
    assert permissions[..|permissions|] == permissions;
  }

  /** `found` is what the cached lookup of the caller's role returned. */
  method VerifyRole(request: Request, found: Option<Role>) returns (granted: bool)
    requires '/' !in request.verb
    requires found.Some? ==> forall p | p in found.value.permissions :: ValidPermission(p)
    modifies request
    ensures granted <==> found.Some? && Allows(found.value, request.verb, Resolve(request.baseUrl, request.routePath))
    ensures request.role == if granted then found else old(request.role)
  {
    var path := request.baseUrl + if request.routePath == "/" then "" else request.routePath;
    if found == None {
      return false;
    }
    var index := BuildIndex(found.value.permissions);
    IndexIsSearch(found.value.permissions, request.verb, path);
    if !(found.value.isActive && Key(request.verb, path) in index) {
      return false;
    }
    request.role := found;
    return true;
  }

  // ---- keys -------------------------------------------------------------------------------

  lemma {:induction false} FirstSeparator(a: string, b: string, x: string, y: string, c: char)
    requires c !in a && c !in b && a + [c] + x == b + [c] + y
    ensures a == b && x == y
  {
    assert (a + [c] + x)[0] == (b + [c] + y)[0];
    if a != [] && b != [] {
      assert (a + [c] + x)[1..] == a[1..] + [c] + x;
      assert (b + [c] + y)[1..] == b[1..] + [c] + y;
      FirstSeparator(a[1..], b[1..], x, y, c);
      assert a == [a[0]] + a[1..] && b == [b[0]] + b[1..];
    } else {
      assert (a + [c] + x)[|a| + 1..] == x && (b + [c] + y)[|b| + 1..] == y;
    }
  }

  /**
   * A key is one method and one path: no request method holds a slash (section 5.6.2 of RFC 9110),
   * and the stored side has a method without a dash and a path that starts with a slash.
   */
  lemma KeyInjective(verb: string, path: string, verb': string, path': string)
    requires '/' !in verb
    requires '-' !in verb' && path' != [] && path'[0] == '/'
    ensures Key(verb, path) == Key(verb', path') <==> verb == verb' && path == path'
  {
    if Key(verb, path) == Key(verb', path') {
      if '-' !in verb {
        FirstSeparator(verb, verb', path, path', '-');
      } else {
        var k := ValidatePath.Index(verb, '-');
        var (a, b) := (verb[..k], verb[k + 1..]);
        assert verb == a + "-" + b;
        assert a + "-" + (b + "-" + path) == verb + "-" + path;
        FirstSeparator(a, verb', b + "-" + path, path', '-');
      }
    }
  }

  lemma {:induction false} IndexKeys(permissions: seq<Permission>, key: string)
    ensures key in KeyBy(permissions) <==> exists p | p in permissions :: Key(p.verb, p.path) == key
  {
    if permissions != [] {
      var (init, last) := (permissions[..|permissions| - 1], permissions[|permissions| - 1]);
      assert permissions == init + [last];
      IndexKeys(init, key);
    }
  }

  /** The index answers exactly like a search for that method and path. */
  lemma IndexIsSearch(permissions: seq<Permission>, verb: string, path: string)
    requires '/' !in verb
    requires forall p | p in permissions :: ValidPermission(p)
    ensures Key(verb, path) in KeyBy(permissions) <==>
            exists p | p in permissions :: p.verb == verb && p.path == path
  {
    IndexKeys(permissions, Key(verb, path));
    forall p | p in permissions
      ensures Key(p.verb, p.path) == Key(verb, path) <==> p.verb == verb && p.path == path
    {
      assert ValidPermission(p);
      ValidMethodPlain(p.verb);
      KeyInjective(verb, path, p.verb, p.path);
    }
  }

  // ---- the catalogue keeps one route per key ----------------------------------------------

  /** The entry is the first of its key. */
  predicate FirstOfKey(routes: seq<AvailableRoute>, entry: AvailableRoute, i: nat) {
    i < |routes| && routes[i] == entry && forall j | 0 <= j < i :: KeyOf(routes[j]) != KeyOf(entry)
  }

  /** Every route of `kept` is the first of its key in `routes`. */
  ghost predicate AllFirsts(routes: seq<AvailableRoute>, kept: seq<AvailableRoute>) {
    forall route | route in kept :: exists i: nat :: FirstOfKey(routes, route, i)
  }

  lemma FirstStays(init: seq<AvailableRoute>, last: AvailableRoute, route: AvailableRoute, i: nat)
    requires FirstOfKey(init, route, i)
    ensures FirstOfKey(init + [last], route, i)
  {
    forall j | 0 <= j < i ensures KeyOf((init + [last])[j]) != KeyOf(route) {
      assert (init + [last])[j] == init[j];
    }
  }

  lemma NewIsFirst(init: seq<AvailableRoute>, last: AvailableRoute)
    requires KeyOf(last) !in Keys(init)
    ensures FirstOfKey(init + [last], last, |init|)
  {
    forall j | 0 <= j < |init| ensures KeyOf((init + [last])[j]) != KeyOf(last) {
      assert (init + [last])[j] == init[j] && init[j] in init;
    }
  }

  lemma FirstsMore(init: seq<AvailableRoute>, last: AvailableRoute, kept: seq<AvailableRoute>)
    requires AllFirsts(init, kept)
    ensures AllFirsts(init + [last], kept)
    ensures KeyOf(last) !in Keys(init) ==> AllFirsts(init + [last], kept + [last])
  {
    forall route | route in kept ensures exists i: nat :: FirstOfKey(init + [last], route, i) {
      var i: nat :| FirstOfKey(init, route, i);
      FirstStays(init, last, route, i);
    }
    if KeyOf(last) !in Keys(init) {
      NewIsFirst(init, last);
    }
  }

  lemma KeysMore(routes: seq<AvailableRoute>, last: AvailableRoute)
    ensures Keys(routes + [last]) == Keys(routes) + {KeyOf(last)}
  {
  }

  lemma {:induction false} FirstsOf(routes: seq<AvailableRoute>)
    ensures Keys(Firsts(routes)) == Keys(routes)
    ensures forall i, j | 0 <= i < j < |Firsts(routes)| :: KeyOf(Firsts(routes)[i]) != KeyOf(Firsts(routes)[j])
    ensures AllFirsts(routes, Firsts(routes))
  {
    if routes != [] {
      var (init, last) := (routes[..|routes| - 1], routes[|routes| - 1]);
      assert routes == init + [last];
      FirstsOf(init);
      KeysMore(init, last);
      KeysMore(Firsts(init), last);
      FirstsMore(init, last, Firsts(init));
      assert forall i | 0 <= i < |Firsts(init)| :: Firsts(init)[i] in Firsts(init);
    }
  }

  /** A method as Express names it: in lower case. */
  predicate LowerCase(verb: string) {
    forall i | 0 <= i < |verb| :: 'a' <= verb[i] <= 'z'
  }

  /** Letter by letter, so a lower-case method has one upper-case name and the other way round. */
  lemma UpperIs(verb: string, lower: string, upper: string)
    requires LowerCase(verb) && |lower| == |upper|
    requires forall i | 0 <= i < |lower| :: 'a' <= lower[i] <= 'z' && 'A' <= upper[i] <= 'Z'
    requires forall i | 0 <= i < |lower| :: lower[i] - 'a' == upper[i] - 'A'
    ensures Upper(verb) == upper <==> verb == lower
  {
    if Upper(verb) == upper {
      assert |verb| == |lower|;
      forall i | 0 <= i < |verb| ensures verb[i] == lower[i] {
        assert Upper(verb)[i] == upper[i];
      }
    }
    if verb == lower {
      forall i | 0 <= i < |verb| ensures Upper(verb)[i] == upper[i] {
      }
    }
  }

  /** Of the flags of a router, exactly those of the seven methods yield a route, when they are on. */
  lemma KeptFlags(flag: Flag)
    requires LowerCase(flag.verb)
    ensures Kept(flag) <==> flag.on && flag.verb in {"get", "post", "put", "delete", "patch", "options", "head"}
    ensures Upper(flag.verb) == "GET" <==> flag.verb == "get"
    ensures Upper(flag.verb) == "POST" <==> flag.verb == "post"
    ensures Upper(flag.verb) == "PUT" <==> flag.verb == "put"
    ensures Upper(flag.verb) == "DELETE" <==> flag.verb == "delete"
    ensures Upper(flag.verb) == "PATCH" <==> flag.verb == "patch"
    ensures Upper(flag.verb) == "OPTIONS" <==> flag.verb == "options"
    ensures Upper(flag.verb) == "HEAD" <==> flag.verb == "head"
  {
    UpperIs(flag.verb, "get", "GET");
    UpperIs(flag.verb, "post", "POST");
    UpperIs(flag.verb, "put", "PUT");
    UpperIs(flag.verb, "delete", "DELETE");
    UpperIs(flag.verb, "patch", "PATCH");
    UpperIs(flag.verb, "options", "OPTIONS");
    UpperIs(flag.verb, "head", "HEAD");
    NotAll(flag.verb);
  }

  lemma NotAll(verb: string)
    requires LowerCase(verb)
    ensures verb != "_all"
  {
    assert verb != [] ==> 'a' <= verb[0];
  }

  // ---- the two paths agree ----------------------------------------------------------------

  /** The text a router is mounted at. */
  function MountText(prefix: string, version: string, path: string): string {
    prefix + "/" + version + "/" + path
  }

  /** Each part is stripped to at most its own length, and a leading slash is always stripped. */
  lemma JoinLength(prefix: string, version: string, path: string)
    ensures var p, v, q := Strip(prefix), Strip(version), Strip(path);
            |Join([prefix, version, path])| ==
              1 + |p| + |v| + |q|
              + (if p != [] && v != [] then 1 else 0) + (if (p != [] || v != []) && q != [] then 1 else 0)
  {
    JoinThree(prefix, version, path);
    JoinTwo(version, path);
    JoinTwo(prefix, path);
    JoinTwo(prefix, version);
  }

  lemma MountAgrees(prefix: string, version: string, path: string)
    requires (prefix == [] || Rooted(prefix)) && Trimmed(version) && Trimmed(path)
    ensures Join([prefix, version, path]) == MountText(prefix, version, path)
  {
    StripTrims(prefix);
    StripTrims(version);
    StripTrims(path);
    if prefix != [] {
      StripRooted(prefix);
    }
    JoinThree(prefix, version, path);
    JoinTwo(version, path);
  }

  /** Of equal length with the mount text, the join stripped the prefix's one slash and nothing else. */
  lemma AgreeingMount(prefix: string, version: string, path: string)
    requires Join([prefix, version, path]) == MountText(prefix, version, path)
    ensures (prefix == [] || Rooted(prefix)) && Trimmed(version) && Trimmed(path)
  {
    StripTrims(prefix);
    StripTrims(version);
    StripTrims(path);
    JoinLength(prefix, version, path);
    if prefix != [] {
      assert MountText(prefix, version, path)[0] == prefix[0];
      StripRooted(prefix);
      StripTrims(prefix[1..]);
    }
  }

  /** The catalogue's mount is the text the application mounts at, exactly for trimmed parts. */
  lemma MountAgreesIff(prefix: string, version: string, path: string)
    ensures Join([prefix, version, path]) == MountText(prefix, version, path) <==>
            (prefix == [] || Rooted(prefix)) && Trimmed(version) && Trimmed(path)
  {
    if (prefix == [] || Rooted(prefix)) && Trimmed(version) && Trimmed(path) {
      MountAgrees(prefix, version, path);
    }
    if Join([prefix, version, path]) == MountText(prefix, version, path) {
      AgreeingMount(prefix, version, path);
    }
  }

  /** The catalogue's path for a route is the one the guard resolves, exactly in these cases. */
  lemma RouteAgreesIff(mount: string, path: string)
    requires Rooted(mount)
    ensures Join([mount, path]) == Resolve(mount, path) <==> path == "" || path == "/" || Rooted(path)
  {
    JoinTwo(mount, path);
    StripTrims(path);
    StripRooted(mount);
    if path != [] && path[0] == '/' {
      StripRooted(path);
    }
    assert (mount + path)[|mount|..] == path;
    assert (mount + ("/" + Strip(path)))[|mount|..] == "/" + Strip(path);
    assert "/" + (Strip(mount) + "/" + Strip(path)) == mount + ("/" + Strip(path));
  }

  lemma StripRooted(s: string)
    requires s != [] && s[0] == '/'
    ensures Strip(s) == Strip(s[1..])
    ensures Rooted(s) <==> Strip(s) != [] && s == "/" + Strip(s)
  {
    StripTrims(s[1..]);
    StripTrims(s);
    assert s == "/" + s[1..];
  }

  // ---- the catalogue lists exactly what is served -----------------------------------------

  /** Some layer of some router serves this method at this catalogue path. */
  predicate Serves(apiPrefix: string, base: BaseRoute, route: Route, flag: Flag, verb: string, path: string) {
    && route.flags.Some? && flag in route.flags.value && Kept(flag)
    && verb == Upper(flag.verb)
    && path == Join([Join([apiPrefix, base.version, base.path]), PathText(route.path)])
  }

  ghost predicate Served(apiPrefix: string, bases: seq<BaseRoute>, verb: string, path: string) {
    exists base, route, flag ::
      && base in bases && Some(route) in base.stack
      && Serves(apiPrefix, base, route, flag, verb, path)
  }

  predicate Lists(routes: seq<AvailableRoute>, verb: string, path: string) {
    exists entry | entry in routes :: entry.verb == verb && entry.path == path
  }

  lemma {:induction false} FlagRoutesOf(flags: seq<Flag>, path: string, tag: string)
    ensures forall entry :: entry in FlagRoutes(flags, path, tag) <==>
              exists flag | flag in flags :: Kept(flag) && entry == Entry(Upper(flag.verb), path, tag)
  {
    if flags != [] {
      FlagRoutesOf(flags[1..], path, tag);
      assert flags == [flags[0]] + flags[1..];
    }
  }

  lemma {:induction false} StackRoutesOf(stack: seq<Option<Route>>, prefix: string, tag: string)
    ensures forall entry :: entry in StackRoutes(stack, prefix, tag) <==>
              exists layer | layer in stack :: entry in LayerRoutes(layer, prefix, tag)
  {
    if stack != [] {
      StackRoutesOf(stack[1..], prefix, tag);
      assert stack == [stack[0]] + stack[1..];
    }
  }

  lemma {:induction false} AllRoutesOf(apiPrefix: string, bases: seq<BaseRoute>)
    ensures forall entry :: entry in AllRoutes(apiPrefix, bases) <==>
              exists base | base in bases :: entry in BaseRoutes(apiPrefix, base)
  {
    if bases != [] {
      AllRoutesOf(apiPrefix, bases[1..]);
      assert bases == [bases[0]] + bases[1..];
    }
  }

  lemma ServedIsCollected(apiPrefix: string, base: BaseRoute, route: Route, flag: Flag, verb: string, path: string)
    requires Some(route) in base.stack && Serves(apiPrefix, base, route, flag, verb, path)
    ensures Entry(verb, path, base.tag) in BaseRoutes(apiPrefix, base)
  {
    FlagRoutesOf(route.flags.value, path, base.tag);
    StackRoutesOf(base.stack, Join([apiPrefix, base.version, base.path]), base.tag);
  }

  lemma CollectedIsServed(apiPrefix: string, base: BaseRoute, entry: AvailableRoute) returns (route: Route, flag: Flag)
    requires entry in BaseRoutes(apiPrefix, base)
    ensures Some(route) in base.stack && Serves(apiPrefix, base, route, flag, entry.verb, entry.path)
  {
    var mount := Join([apiPrefix, base.version, base.path]);
    StackRoutesOf(base.stack, mount, base.tag);
    var layer :| layer in base.stack && entry in LayerRoutes(layer, mount, base.tag);
    route := layer.value;
    var path := Join([mount, PathText(route.path)]);
    FlagRoutesOf(route.flags.value, path, base.tag);
    flag :| flag in route.flags.value && Kept(flag) && entry == Entry(Upper(flag.verb), path, base.tag);
  }

  lemma AllServed(apiPrefix: string, bases: seq<BaseRoute>, verb: string, path: string)
    ensures Lists(AllRoutes(apiPrefix, bases), verb, path) <==> Served(apiPrefix, bases, verb, path)
  {
    AllRoutesOf(apiPrefix, bases);
    if Lists(AllRoutes(apiPrefix, bases), verb, path) {
      var entry :| entry in AllRoutes(apiPrefix, bases) && entry.verb == verb && entry.path == path;
      var base :| base in bases && entry in BaseRoutes(apiPrefix, base);
      var route, flag := CollectedIsServed(apiPrefix, base, entry);
    }
    if Served(apiPrefix, bases, verb, path) {
      var base, route, flag :|
        base in bases && Some(route) in base.stack && Serves(apiPrefix, base, route, flag, verb, path);
      ServedIsCollected(apiPrefix, base, route, flag, verb, path);
    }
  }

  predicate WellFormed(routes: seq<AvailableRoute>) {
    forall entry | entry in routes :: '/' !in entry.verb && '-' !in entry.verb && entry.path != [] && entry.path[0] == '/'
  }

  lemma {:induction false} FirstsList(routes: seq<AvailableRoute>, verb: string, path: string)
    requires WellFormed(routes)
    ensures Lists(Firsts(routes), verb, path) <==> Lists(routes, verb, path)
  {
    FirstsOf(routes);
    if Lists(routes, verb, path) {
      var entry :| entry in routes && entry.verb == verb && entry.path == path;
      assert KeyOf(entry) in Keys(routes);
      var first :| first in Firsts(routes) && KeyOf(first) == KeyOf(entry);
      KeyInjective(first.verb, first.path, entry.verb, entry.path);
    }
  }

  lemma AllWellFormed(apiPrefix: string, bases: seq<BaseRoute>)
    ensures WellFormed(AllRoutes(apiPrefix, bases))
  {
    AllRoutesOf(apiPrefix, bases);
    forall entry | entry in AllRoutes(apiPrefix, bases)
      ensures '/' !in entry.verb && '-' !in entry.verb && entry.path != [] && entry.path[0] == '/'
    {
      var base :| base in bases && entry in BaseRoutes(apiPrefix, base);
      CollectedWellFormed(apiPrefix, base, entry);
    }
  }

  lemma CollectedWellFormed(apiPrefix: string, base: BaseRoute, entry: AvailableRoute)
    requires entry in BaseRoutes(apiPrefix, base)
    ensures '/' !in entry.verb && '-' !in entry.verb && entry.path != [] && entry.path[0] == '/'
  {
    var route, flag := CollectedIsServed(apiPrefix, base, entry);
    ValidMethodPlain(entry.verb);
    JoinStarts([Join([apiPrefix, base.version, base.path]), PathText(route.path)]);
  }

  lemma ValidMethodPlain(verb: string)
    requires verb in VALID_METHODS
    ensures '/' !in verb && '-' !in verb
  {
  }

  lemma JoinStarts(segments: seq<string>)
    ensures Join(segments) != [] && Join(segments)[0] == '/'
  {
  }

  /** Removing repeated keys loses no route and invents none. */
  lemma CatalogueIsServed(apiPrefix: string, bases: seq<BaseRoute>, verb: string, path: string)
    ensures Lists(Firsts(AllRoutes(apiPrefix, bases)), verb, path) <==> Served(apiPrefix, bases, verb, path)
  {
    AllWellFormed(apiPrefix, bases);
    FirstsList(AllRoutes(apiPrefix, bases), verb, path);
    AllServed(apiPrefix, bases, verb, path);
  }

  /**
   * End to end: a role given the whole catalogue passes the guard on every served string route
   * whose pattern is "", "/" or rooted, at the path its mount text resolves to.
   */
  lemma CatalogueGrants(apiPrefix: string, bases: seq<BaseRoute>, base: BaseRoute, route: Route, flag: Flag, role: Role)
    requires base in bases && Some(route) in base.stack && route.flags.Some? && flag in route.flags.value && Kept(flag)
    requires apiPrefix == [] || Rooted(apiPrefix)
    requires Trimmed(base.version) && Trimmed(base.path)
    requires route.path.Single? && (route.path.text == "" || route.path.text == "/" || Rooted(route.path.text))
    requires role.isActive
    requires forall verb, path | Lists(Firsts(AllRoutes(apiPrefix, bases)), verb, path) ::
               Permission(verb, path) in role.permissions
    ensures Allows(role, Upper(flag.verb), Resolve(MountText(apiPrefix, base.version, base.path), route.path.text))
  {
    var mount := MountText(apiPrefix, base.version, base.path);
    var path := Resolve(mount, route.path.text);
    MountAgreesIff(apiPrefix, base.version, base.path);
    MountIsRooted(apiPrefix, base.version, base.path);
    RouteAgreesIff(mount, route.path.text);
    assert Serves(apiPrefix, base, route, flag, Upper(flag.verb), path);
    CatalogueIsServed(apiPrefix, bases, Upper(flag.verb), path);
    assert Permission(Upper(flag.verb), path) in role.permissions;
  }

  lemma MountIsRooted(prefix: string, version: string, path: string)
    requires (prefix == [] || Rooted(prefix)) && Trimmed(version) && Trimmed(path)
    ensures Rooted(MountText(prefix, version, path))
  {
  }

  // ---- valid permission paths -------------------------------------------------------------

  lemma ValidPathIsRooted(language: ValidatePath.Language, path: string)
    requires ValidatePath.ValidPath(language, path)
    ensures path == "/" || Rooted(path)
  {
    ValidatePath.PathSurrounds(language, path, 0);
    ValidatePath.PathSurrounds(language, path, |path| - 1);
  }

  function Lowered(lowerChar: char -> char, s: string): string {
    seq(|s|, i requires 0 <= i < |s| => lowerChar(s[i]))
  }

  /** Lower-casing moves no slash. */
  lemma LoweredRooted(lowerChar: char -> char, s: string)
    requires forall c :: lowerChar(c) == '/' <==> c == '/'
    ensures Rooted(Lowered(lowerChar, s)) <==> Rooted(s)
    ensures Lowered(lowerChar, s) == "/" <==> s == "/"
  {
    var low := Lowered(lowerChar, s);
    assert |low| == |s| && forall i | 0 <= i < |s| :: low[i] == lowerChar(s[i]);
  }

  lemma LoweredConcat(lowerChar: char -> char, a: string, b: string)
    ensures Lowered(lowerChar, a + b) == Lowered(lowerChar, a) + Lowered(lowerChar, b)
  {
  }

  /** A route whose lower-cased mount and pattern are valid has one path, valid in lower case as well. */
  lemma LoweredRoutesAgree(lowerChar: char -> char, language: ValidatePath.Language, mount: string, path: string)
    requires forall c :: lowerChar(c) == '/' <==> c == '/'
    requires ValidatePath.ValidPath(language, Lowered(lowerChar, mount)) && mount != "/"
    requires ValidatePath.ValidPath(language, Lowered(lowerChar, path))
    ensures Join([mount, path]) == Resolve(mount, path)
    ensures ValidatePath.ValidPath(language, Lowered(lowerChar, Resolve(mount, path)))
  {
    LoweredRooted(lowerChar, mount);
    LoweredRooted(lowerChar, path);
    ValidPathIsRooted(language, Lowered(lowerChar, mount));
    ValidPathIsRooted(language, Lowered(lowerChar, path));
    RouteAgreesIff(mount, path);
    if path != "/" {
      LoweredConcat(lowerChar, mount, path);
      ValidatePath.ValidBelow(language, Lowered(lowerChar, mount), Lowered(lowerChar, path));
    } else {
      assert Resolve(mount, path) == mount;
    }
  }

  /**
   * A route whose mount and pattern pass `validatePath`, in whatever case they are written, is
   * catalogued under the path the guard resolves, and that path passes too: it can be stored as a
   * permission.
   */
  lemma ValidRoutesAgree(
    lowerChar: char -> char, decode: string -> ValidatePath.Decoded, options: ValidatePath.Options,
    mount: string, path: string)
    requires forall c :: lowerChar(c) == '/' <==> c == '/'
    requires ValidatePath.LibraryKeeps(s => Lowered(lowerChar, s), decode)
    requires ValidatePath.Validate(mount, options, s => Lowered(lowerChar, s), decode) && mount != "/"
    requires ValidatePath.Validate(path, options, s => Lowered(lowerChar, s), decode)
    ensures Join([mount, path]) == Resolve(mount, path)
    ensures ValidatePath.Validate(Resolve(mount, path), options, s => Lowered(lowerChar, s), decode)
  {
    var lower := s => Lowered(lowerChar, s);
    ValidatePath.ValidateIsGrammar(mount, options, lower, decode);
    ValidatePath.ValidateIsGrammar(path, options, lower, decode);
    ValidatePath.ValidateIsGrammar(Resolve(mount, path), options, lower, decode);
    LoweredRoutesAgree(lowerChar, ValidatePath.LanguageOf(options), mount, path);
  }
}
