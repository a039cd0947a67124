/** A policy: compiling and checking a configuration, and the label a path needs. Paths
    and endpoints are byte strings: every character stands for one byte. */
module Policy {
  import opened Stores
  import opened Authz

  datatype Rule = Rule(path: string, tag: string)

  datatype Config = Config(rules: seq<Rule>, defaultLabel: string, endpoints: map<string, string>, param: string)

  datatype Compiled = Compiled(rules: seq<Rule>, defaultLabel: string, endpoints: map<string, string>, param: string)

  datatype Error = RelativePath | EmptyLabel | DuplicatePath | NoEndpoint | RelativeEndpoint | RedirectLoop

  datatype Loaded = Accepted(policy: Compiled) | Refused(error: Error)

  function DefaultOf(cfg: Config): string { if cfg.defaultLabel == "" then ANONYMOUS else cfg.defaultLabel }

  predicate Rooted(s: string) { s != "" && s[0] == '/' }

  // ---- what a set of rules means -------------------------------------------------------

  /** The rule's place is on the way to the requested one. */
  predicate Matches(r: Rule, p: string) { Place(r.path) <= Place("/" + p) }

  /** `tag` is the label of the longest matching rule, or the default when none matches.
      Nothing here depends on the order of the rules. */
  ghost predicate Needs(rules: set<Rule>, default: string, p: string, tag: string) {
    || ((forall r <- rules :: !Matches(r, p)) && tag == default)
    || (exists r <- rules :: r.tag == tag && Longest(rules, r, p))
  }

  ghost predicate Longest(rules: set<Rule>, r: Rule, p: string) {
    r in rules && Matches(r, p) && forall q <- rules :: Matches(q, p) ==> |Place(q.path)| <= |Place(r.path)|
  }

  ghost predicate Distinct(rules: set<Rule>) {
    forall r <- rules, q <- rules :: Place(r.path) == Place(q.path) ==> r == q
  }

  /** With one rule per place the needed label is unique. */
  lemma NeedsUnique(rules: set<Rule>, default: string, p: string, a: string, b: string)
    requires Distinct(rules) && Needs(rules, default, p, a) && Needs(rules, default, p, b)
    ensures a == b
  {
  }

  // ---- the match loop -----------------------------------------------------------------------

  function FirstMatch(rules: seq<Rule>, clean: string, default: string): string {
    if rules == [] then default
    else if Covers(rules[0].path, clean) then rules[0].tag else FirstMatch(rules[1..], clean, default)
  }

  function Required(a: Compiled, p: string): string { FirstMatch(a.rules, Clean("/" + p), a.defaultLabel) }

  method RequiredLoop(a: Compiled, p: string) returns (tag: string)
    ensures tag == Required(a, p)
  {
    var clean := Clean("/" + p);
    for i := 0 to |a.rules|
      invariant Required(a, p) == FirstMatch(a.rules[i..], clean, a.defaultLabel)
    {
      if a.rules[i].path == "/" || clean == a.rules[i].path || a.rules[i].path + "/" <= clean { return a.rules[i].tag; }
      assert a.rules[i..][1..] == a.rules[i + 1..];
    }
    return a.defaultLabel;
  }

  /** Longest path first. */
  predicate LongestFirst(rules: seq<Rule>) {
    forall i, j :: 0 <= i < j < |rules| ==> |rules[j].path| <= |rules[i].path|
  }

  ghost predicate AllClean(rules: seq<Rule>) { forall r <- rules :: r.path == Clean(r.path) }

  ghost function RuleSet(rules: seq<Rule>): set<Rule> { set r | r in rules }

  lemma CleanRoot(p: string)
    ensures Place(Clean("/" + p)) == Place("/" + p) && Clean(Clean("/" + p)) == Clean("/" + p)
  {
    CleanKeepsPlace("/" + p);
  }

  /** Among matching clean rules a longer path is a longer place. */
  lemma LengthsAgree(r: Rule, q: Rule, p: string)
    requires r.path == Clean(r.path) && q.path == Clean(q.path) && Matches(r, p) && Matches(q, p)
    ensures |r.path| <= |q.path| <==> |Place(r.path)| <= |Place(q.path)|
  {
    var a, b, t := Place(r.path), Place(q.path), Place("/" + p);
    PlaceNames(r.path);
    PlaceNames(q.path);
    assert a == t[..|a|] && b == t[..|b|];
    if |a| < |b| { assert a <= b; LongerPlaceLongerPath(a, b); }
    else if |b| < |a| { assert b <= a; LongerPlaceLongerPath(b, a); }
  }

  lemma {:induction false} FirstMatchIndex(rules: seq<Rule>, clean: string, default: string) returns (i: nat)
    ensures i <= |rules| && forall j :: 0 <= j < i ==> !Covers(rules[j].path, clean)
    ensures if i < |rules| then Covers(rules[i].path, clean) && FirstMatch(rules, clean, default) == rules[i].tag
            else FirstMatch(rules, clean, default) == default
  {
    if rules == [] || Covers(rules[0].path, clean) {
      i := 0;
    } else {
      var k := FirstMatchIndex(rules[1..], clean, default);
      i := k + 1;
      forall j | 0 <= j < i ensures !Covers(rules[j].path, clean) { if j > 0 { assert rules[j] == rules[1..][j - 1]; } }
    }
  }

  /** The first match in a list sorted longest first is what the rules mean. */
  lemma RequiredMeansNeeded(a: Compiled, p: string)
    requires AllClean(a.rules) && LongestFirst(a.rules)
    ensures Needs(RuleSet(a.rules), a.defaultLabel, p, Required(a, p))
  {
    var clean := Clean("/" + p);
    CleanRoot(p);
    forall r | r in a.rules ensures Covers(r.path, clean) <==> Matches(r, p) { CoversIsPrefix(r.path, clean); }
    var i := FirstMatchIndex(a.rules, clean, a.defaultLabel);
    if i < |a.rules| {
      var r := a.rules[i];
      forall q | q in RuleSet(a.rules) && Matches(q, p) ensures |Place(q.path)| <= |Place(r.path)| {
        var j :| 0 <= j < |a.rules| && a.rules[j] == q;
        assert j >= i;
        LengthsAgree(q, r, p);
      }
      assert Longest(RuleSet(a.rules), r, p);
    }
  }

  /** A path needs what its cleaned form needs: dots and doubled slashes dodge nothing. */
  lemma RequiredOfClean(a: Compiled, p: string)
    ensures Required(a, Clean("/" + p)) == Required(a, p)
  {
    var c := Clean("/" + p);
    CleanRoot(p);
    PlaceNames("/" + p);
    assert Place("/" + c) == Place(c) by { DoubledSlash(c); }
  }

  lemma DoubledSlash(c: string)
    ensures Place("/" + c) == Place(c)
  {
  }

  // ---- loading ------------------------------------------------------------------------------

  function PathPart(s: string): string {
    if s == "" || s[0] == '?' then "" else [s[0]] + PathPart(s[1..])
  }

  /** A rule as compiled. */
  function Compile(r: Rule): Rule { Rule(Clean(r.path), r.tag) }

  function CompileAll(rules: seq<Rule>): seq<Rule> { seq(|rules|, i requires 0 <= i < |rules| => Compile(rules[i])) }

  ghost predicate RulesFine(rules: seq<Rule>) {
    && (forall r <- rules :: Rooted(r.path) && r.tag != "")
    && (forall i, j :: 0 <= i < j < |rules| ==> Clean(rules[i].path) != Clean(rules[j].path))
  }

  ghost predicate LabelServed(cfg: Config, tag: string) {
    tag == ANONYMOUS || (tag in cfg.endpoints && cfg.endpoints[tag] != "")
  }

  /** Every label in force has an endpoint, and no endpoint needs a label itself. */
  ghost predicate EndpointsFine(cfg: Config) {
    && LabelServed(cfg, DefaultOf(cfg)) && (forall r <- cfg.rules :: LabelServed(cfg, r.tag))
    && (forall tag <- cfg.endpoints ::
          && Rooted(cfg.endpoints[tag])
          && Needs(RuleSet(cfg.rules), DefaultOf(cfg), PathPart(cfg.endpoints[tag]), ANONYMOUS))
  }

  ghost predicate Compiles(cfg: Config, a: Compiled) {
    && a.defaultLabel == DefaultOf(cfg) && a.endpoints == cfg.endpoints && a.param == (if cfg.param == "" then "rd" else cfg.param)
    && multiset(a.rules) == multiset(CompileAll(cfg.rules)) && LongestFirst(a.rules)
  }

  /** What a compiled policy needs is what its configuration means. */
  lemma CompiledMeansConfig(cfg: Config, a: Compiled, p: string)
    requires Compiles(cfg, a)
    ensures Needs(RuleSet(cfg.rules), DefaultOf(cfg), p, Required(a, p)) && AllClean(a.rules)
  {
    var cs := CompileAll(cfg.rules);
    forall r | r in a.rules ensures r in cs { assert r in multiset(a.rules); }
    forall r | r in cs ensures r in a.rules { assert r in multiset(cs); }
    forall r | r in a.rules ensures r.path == Clean(r.path) {
      var i :| 0 <= i < |cs| && cs[i] == r;
      CleanKeepsPlace(cfg.rules[i].path);
    }
    RequiredMeansNeeded(a, p);
    NeedsOfCompiled(cfg.rules, cs, a.rules, DefaultOf(cfg), p, Required(a, p));
  }

  lemma NeedsOfCompiled(rules: seq<Rule>, cs: seq<Rule>, out: seq<Rule>, default: string, p: string, tag: string)
    requires cs == CompileAll(rules) && RuleSet(out) == RuleSet(cs) && Needs(RuleSet(out), default, p, tag)
    ensures Needs(RuleSet(rules), default, p, tag)
  {
    forall r | r in RuleSet(rules) ensures SamePlace(r, Compile(r)) && Compile(r) in RuleSet(out) {
      var i :| 0 <= i < |rules| && rules[i] == r;
      assert cs[i] in RuleSet(cs);
      CleanKeepsPlace(r.path);
    }
    if c :| c in RuleSet(out) && c.tag == tag && Longest(RuleSet(out), c, p) {
      assert c in RuleSet(cs);
      var i :| 0 <= i < |cs| && cs[i] == c;
      var r := rules[i];
      assert r in RuleSet(rules) && SamePlace(r, c);
      forall q | q in RuleSet(rules) && Matches(q, p) ensures |Place(q.path)| <= |Place(r.path)| {
        assert SamePlace(q, Compile(q)) && Matches(Compile(q), p);
      }
      assert Longest(RuleSet(rules), r, p);
    } else {
      forall r | r in RuleSet(rules) ensures !Matches(r, p) {
        assert SamePlace(r, Compile(r));
      }
    }
  }

  predicate SamePlace(r: Rule, c: Rule) { Place(c.path) == Place(r.path) && c.tag == r.tag }

  lemma FineIsDistinct(rules: seq<Rule>)
    requires RulesFine(rules)
    ensures Distinct(RuleSet(rules))
  {
  }

  /** The order of the rules never matters: configurations with the same rules in any
      order, compiled in any order the sort may leave, need the same labels. */
  lemma OrderFree(cfg: Config, other: Config, a: Compiled, b: Compiled, p: string)
    requires RulesFine(cfg.rules) && Compiles(cfg, a) && Compiles(other, b)
    requires multiset(cfg.rules) == multiset(other.rules) && DefaultOf(cfg) == DefaultOf(other)
    ensures Required(a, p) == Required(b, p)
  {
    CompiledMeansConfig(cfg, a, p);
    CompiledMeansConfig(other, b, p);
    assert RuleSet(cfg.rules) == RuleSet(other.rules) by {
      forall r ensures r in cfg.rules <==> r in other.rules {
        assert r in cfg.rules <==> r in multiset(cfg.rules);
        assert r in other.rules <==> r in multiset(other.rules);
      }
    }
    FineIsDistinct(cfg.rules);
    NeedsUnique(RuleSet(cfg.rules), DefaultOf(cfg), p, Required(a, p), Required(b, p));
  }

  lemma InsertKeepsOrder(rules: seq<Rule>, k: nat, x: Rule)
    requires LongestFirst(rules) && k <= |rules| && (k > 0 ==> |x.path| <= |rules[k - 1].path|)
    requires forall j :: k <= j < |rules| ==> |rules[j].path| < |x.path|
    ensures LongestFirst(rules[..k] + [x] + rules[k..])
  {
  }

  /** Puts a rule behind all that are at least as long. */
  method InsertRule(rules: seq<Rule>, x: Rule) returns (r: seq<Rule>)
    requires LongestFirst(rules)
    ensures LongestFirst(r) && multiset(r) == multiset(rules) + multiset{x}
  {
    var k := |rules|;
    while k > 0 && |rules[k - 1].path| < |x.path|
      invariant 0 <= k <= |rules|
      invariant forall j :: k <= j < |rules| ==> |rules[j].path| < |x.path|
    {
      k := k - 1;
    }
    InsertKeepsOrder(rules, k, x);
    r := rules[..k] + [x] + rules[k..];
    assert rules == rules[..k] + rules[k..];
  }

  /** Stands for the library's sort, which leaves equal lengths in any order. */
  method SortLongestFirst(rules: seq<Rule>) returns (r: seq<Rule>)
    ensures LongestFirst(r) && multiset(r) == multiset(rules)
  {
    r := [];
    for i := 0 to |rules|
      invariant LongestFirst(r) && multiset(r) == multiset(rules[..i])
    {
      assert rules[..i + 1] == rules[..i] + [rules[i]];
      r := InsertRule(r, rules[i]);
    }
    assert rules[..|rules|] == rules;
  }

  /** The rule loop of loading. */
  method CompileRules(rules: seq<Rule>) returns (error: Option<Error>, out: seq<Rule>)
    ensures error.None? <==> RulesFine(rules)
    ensures error.None? ==> out == CompileAll(rules)
  {
    var seen: set<string> := {};
    out := [];
    for i := 0 to |rules|
      invariant RulesFine(rules[..i]) && out == CompileAll(rules[..i])
      invariant seen == set r | r in rules[..i] :: Clean(r.path)
    {
      var r := rules[i];
      assert rules[..i + 1] == rules[..i] + [r] && r in rules;
      if !Rooted(r.path) { return Some(RelativePath), []; }
      if r.tag == "" { return Some(EmptyLabel), []; }
      var p := Clean(r.path);
      if p in seen {
        DuplicateFound(rules, i);
        return Some(DuplicatePath), [];
      }
      seen := seen + {p};
      out := out + [Rule(p, r.tag)];
    }
    assert rules[..|rules|] == rules;
    return None, out;
  }

  lemma DuplicateFound(rules: seq<Rule>, i: nat)
    requires i < |rules| && exists r :: r in rules[..i] && Clean(r.path) == Clean(rules[i].path)
    ensures !RulesFine(rules)
  {
  }

  /** The endpoint loops of loading. */
  method CheckEndpoints(cfg: Config, a: Compiled) returns (error: Option<Error>)
    requires RulesFine(cfg.rules) && Compiles(cfg, a)
    ensures error.None? <==> EndpointsFine(cfg)
  {
    var used: set<string> := {a.defaultLabel};
    for i := 0 to |a.rules|
      invariant used == {a.defaultLabel} + set r | r in a.rules[..i] :: r.tag
    {
      assert a.rules[..i + 1] == a.rules[..i] + [a.rules[i]];
      used := used + {a.rules[i].tag};
    }
    assert a.rules[..|a.rules|] == a.rules;
    UsedLabels(cfg, a, used);
    while used != {}
      invariant (forall tag <- used :: LabelServed(cfg, tag)) <==>
                LabelServed(cfg, DefaultOf(cfg)) && (forall r <- cfg.rules :: LabelServed(cfg, r.tag))
      decreases used
    {
      var tag :| tag in used;
      if tag != ANONYMOUS && !(tag in a.endpoints && a.endpoints[tag] != "") { return Some(NoEndpoint); }
      used := used - {tag};
    }
    var todo := a.endpoints.Keys;
    while todo != {}
      invariant todo <= cfg.endpoints.Keys
      invariant forall tag <- cfg.endpoints.Keys - todo ::
                  Rooted(cfg.endpoints[tag]) && Needs(RuleSet(cfg.rules), DefaultOf(cfg), PathPart(cfg.endpoints[tag]), ANONYMOUS)
      decreases todo
    {
      var tag :| tag in todo;
      var endpoint := a.endpoints[tag];
      if !Rooted(endpoint) { return Some(RelativeEndpoint); }
      var needed := RequiredLoop(a, PathPart(endpoint));
      CompiledMeansConfig(cfg, a, PathPart(endpoint));
      if needed != ANONYMOUS {
        LoopFound(cfg, a, PathPart(endpoint));
        return Some(RedirectLoop);
      }
      todo := todo - {tag};
    }
    return None;
  }

  lemma LoopFound(cfg: Config, a: Compiled, p: string)
    requires RulesFine(cfg.rules) && Compiles(cfg, a) && Required(a, p) != ANONYMOUS
    ensures !Needs(RuleSet(cfg.rules), DefaultOf(cfg), p, ANONYMOUS)
  {
    CompiledMeansConfig(cfg, a, p);
    FineIsDistinct(cfg.rules);
    if Needs(RuleSet(cfg.rules), DefaultOf(cfg), p, ANONYMOUS) {
      NeedsUnique(RuleSet(cfg.rules), DefaultOf(cfg), p, Required(a, p), ANONYMOUS);
    }
  }

  lemma UsedLabels(cfg: Config, a: Compiled, used: set<string>)
    requires Compiles(cfg, a) && used == {a.defaultLabel} + set r | r in a.rules :: r.tag
    ensures used == {DefaultOf(cfg)} + set r | r in cfg.rules :: r.tag
  {
    var cs := CompileAll(cfg.rules);
    forall r | r in a.rules ensures exists q :: q in cfg.rules && q.tag == r.tag {
      assert r in multiset(a.rules);
      var i :| 0 <= i < |cs| && cs[i] == r;
      assert cfg.rules[i] in cfg.rules;
    }
    forall q | q in cfg.rules ensures exists r :: r in a.rules && r.tag == q.tag {
      var i :| 0 <= i < |cfg.rules| && cfg.rules[i] == q;
      assert cs[i] in multiset(cs);
      assert cs[i] in a.rules;
    }
  }

  /** Loading accepts exactly the fine configurations and compiles them faithfully. */
  method New(cfg: Config) returns (r: Loaded)
    ensures r.Accepted? <==> RulesFine(cfg.rules) && EndpointsFine(cfg)
    ensures r.Accepted? ==> Compiles(cfg, r.policy)
  {
    var defaultLabel := if cfg.defaultLabel == "" then ANONYMOUS else cfg.defaultLabel;
    var param := if cfg.param == "" then "rd" else cfg.param;
    var error, compiled := CompileRules(cfg.rules);
    if error.Some? { return Refused(error.value); }
    var sorted := SortLongestFirst(compiled);
    var a := Compiled(sorted, defaultLabel, cfg.endpoints, param);
    error := CheckEndpoints(cfg, a);
    if error.Some? { return Refused(error.value); }
    return Accepted(a);
  }

  // ---- denial ------------------------------------------------------------------------------

  /** The redirect target of a denied browser; `back` is the escaped way back. */
  function Location(a: Compiled, endpoint: string, back: string): string {
    endpoint + (if '?' in endpoint then "&" else "?") + a.param + "=" + back
  }

  function HexDigit(c: char): Option<int> {
    if '0' <= c <= '9' then Some(c as int - '0' as int)
    else if 'a' <= c <= 'f' then Some(c as int - 'a' as int + 10)
    else if 'A' <= c <= 'F' then Some(c as int - 'A' as int + 10) else None
  }

  /** Percent decoding of a path, byte by byte; a server refuses a malformed escape. */
  function Unescape(s: string): Option<string> {
    if s == "" then Some("")
    else if s[0] != '%' then Prefixed(s[0], Unescape(s[1..]))
    else if |s| >= 3 && HexDigit(s[1]).Some? && HexDigit(s[2]).Some?
    then Prefixed((HexDigit(s[1]).value * 16 + HexDigit(s[2]).value) as char, Unescape(s[3..]))
    else None
  }

  function Prefixed(c: char, rest: Option<string>): Option<string> { if rest.None? then None else Some([c] + rest.value) }

  function BeforeQueryOrFragment(s: string): string {
    if s == "" || s[0] == '?' || s[0] == '#' then "" else [s[0]] + BeforeQueryOrFragment(s[1..])
  }

  /** What a client makes of the path of a reference before it asks for it: clients
      differ in how they resolve dots. */
  type Client = string -> string

  /** The path of the request a client makes when it follows a redirect, if the server
      takes the request at all. */
  function FollowedPath(client: Client, location: string): Option<string> { Unescape(client(BeforeQueryOrFragment(location))) }

  /** The request for the path is let through without a label, or not taken at all. */
  predicate LetThrough(a: Compiled, path: Option<string>) { path.Some? ==> Required(a, path.value) == ANONYMOUS }

  /** What the proxy appends does not change the path a client follows. */
  lemma {:induction false} CutEndpoint(endpoint: string, rest: string)
    requires '?' in endpoint || (rest != "" && rest[0] == '?')
    ensures BeforeQueryOrFragment(endpoint + rest) == BeforeQueryOrFragment(endpoint)
  {
    if endpoint == "" {
      assert endpoint + rest == rest;
    } else {
      assert (endpoint + rest)[0] == endpoint[0] && (endpoint + rest)[1..] == endpoint[1..] + rest;
      assert endpoint == [endpoint[0]] + endpoint[1..];
      if endpoint[0] != '?' { CutEndpoint(endpoint[1..], rest); }
    }
  }

  lemma {:induction false} NothingToUnescape(s: string)
    requires '%' !in s
    ensures Unescape(s) == Some(s)
  {
    if s != "" {
      assert s[0] in s && s == [s[0]] + s[1..];
      NothingToUnescape(s[1..]);
    }
  }

  lemma {:induction false} NoFragment(endpoint: string)
    requires '#' !in endpoint
    ensures BeforeQueryOrFragment(endpoint) == PathPart(endpoint)
  {
    if endpoint != "" {
      assert endpoint[0] in endpoint && endpoint == [endpoint[0]] + endpoint[1..];
      if endpoint[0] != '?' { NoFragment(endpoint[1..]); }
    }
  }

  /** Without fragments and escapes the path checked is the path followed, by any client
      that leaves it alone. */
  lemma PlainEndpoint(client: Client, endpoint: string)
    requires '#' !in endpoint && '%' !in endpoint && client(PathPart(endpoint)) == PathPart(endpoint)
    ensures FollowedPath(client, endpoint) == Some(PathPart(endpoint))
  {
    NoFragment(endpoint);
    PartOf(endpoint);
    NothingToUnescape(PathPart(endpoint));
  }

  lemma {:induction false} PartOf(endpoint: string)
    ensures forall c <- PathPart(endpoint) :: c in endpoint
  {
    if endpoint != "" && endpoint[0] != '?' { PartOf(endpoint[1..]); }
  }

  /** The path needs no label, by the configuration's own rules. */
  ghost predicate Open(cfg: Config, path: string) { Needs(RuleSet(cfg.rules), DefaultOf(cfg), path, ANONYMOUS) }

  lemma OpenIsAnonymous(cfg: Config, a: Compiled, path: string)
    requires RulesFine(cfg.rules) && Compiles(cfg, a)
    ensures Open(cfg, path) <==> Required(a, path) == ANONYMOUS
  {
    CompiledMeansConfig(cfg, a, path);
    if Open(cfg, path) {
      FineIsDistinct(cfg.rules);
      NeedsUnique(RuleSet(cfg.rules), DefaultOf(cfg), path, Required(a, path), ANONYMOUS);
    }
  }

  lemma EndpointServed(cfg: Config, a: Compiled, p: string)
    requires EndpointsFine(cfg) && Compiles(cfg, a) && Required(a, p) != ANONYMOUS
    ensures var tag := Required(a, p); tag in cfg.endpoints && Rooted(cfg.endpoints[tag]) && Open(cfg, PathPart(cfg.endpoints[tag]))
  {
    CompiledMeansConfig(cfg, a, p);
    assert LabelServed(cfg, Required(a, p));
  }

  lemma SamePathFollowed(a: Compiled, client: Client, endpoint: string, back: string)
    ensures FollowedPath(client, Location(a, endpoint, back)) == FollowedPath(client, endpoint)
  {
    var rest := (if '?' in endpoint then "&" else "?") + a.param + "=" + back;
    assert Location(a, endpoint, back) == endpoint + rest;
    CutEndpoint(endpoint, rest);
  }

  /** Redirects do not loop: under an accepted policy a path that needs a label is
      denied towards an endpoint that exists; following it never leads to a second
      denial exactly when the path the endpoint stands for, once fragment and escapes
      are resolved, needs no label by the configured rules. The check made when the policy
      is loaded looks at the path as spelled, so it settles the matter for endpoints
      whose spelling is that path. */
  lemma NoRedirectLoop(cfg: Config, a: Compiled, client: Client, p: string, back: string)
    requires RulesFine(cfg.rules) && EndpointsFine(cfg) && Compiles(cfg, a) && Required(a, p) != ANONYMOUS
    ensures var tag := Required(a, p);
            && tag in cfg.endpoints && a.endpoints == cfg.endpoints && Rooted(cfg.endpoints[tag])
            && var endpoint := cfg.endpoints[tag];
               && (LetThrough(a, FollowedPath(client, Location(a, endpoint, back))) <==>
                     (FollowedPath(client, endpoint).Some? ==> Open(cfg, FollowedPath(client, endpoint).value)))
               && (FollowedPath(client, endpoint) == Some(PathPart(endpoint)) ==> LetThrough(a, FollowedPath(client, Location(a, endpoint, back))))
               && ('#' !in endpoint && '%' !in endpoint && client(PathPart(endpoint)) == PathPart(endpoint) ==>
                     FollowedPath(client, endpoint) == Some(PathPart(endpoint)))
  {
    EndpointServed(cfg, a, p);
    var endpoint := cfg.endpoints[Required(a, p)];
    SamePathFollowed(a, client, endpoint, back);
    OpenIsAnonymous(cfg, a, PathPart(endpoint));
    var path := FollowedPath(client, endpoint);
    if path.Some? { OpenIsAnonymous(cfg, a, path.value); }
    if '#' !in endpoint && '%' !in endpoint && client(PathPart(endpoint)) == PathPart(endpoint) { PlainEndpoint(client, endpoint); }
  }

  predicate PlainName(n: string) { IsName(n) && '#' !in n && '?' !in n && '%' !in n }

  /** A login page at "/n" behind its own rule, with an endpoint that spells it otherwise. */
  function Respelled(n: string, spelling: string): Config {
    Config([Rule("/" + n, "user")], "", map["user" := "/" + spelling], "")
  }

  lemma PlaceOfName(n: string)
    requires IsName(n)
    ensures Place("/" + n) == [n] && Place("/" + ("/" + n)) == [n]
  {
    assert Slashed([n]) == "/" + n + Slashed([n][1..]);
    assert Spelled([n]) == "/" + n;
    PlaceOfSpelled([n]);
    DoubledSlash("/" + n);
  }

  lemma {:induction false} PathPartWhole(s: string)
    requires '?' !in s
    ensures PathPart(s) == s
  {
    if s != "" {
      assert s[0] in s && s == [s[0]] + s[1..];
      PathPartWhole(s[1..]);
    }
  }

  /** The check looks at a path no client requests: such a configuration is accepted, and
      a denied client is redirected to a page that denies it again. */
  lemma RespelledLoops(n: string, spelling: string, a: Compiled, location: string, client: Client)
    requires IsName(n) && IsName(spelling) && n != spelling && '?' !in spelling && Compiles(Respelled(n, spelling), a)
    requires FollowedPath(client, location) == Some("/" + n)
    ensures RulesFine(Respelled(n, spelling).rules) && EndpointsFine(Respelled(n, spelling))
    ensures !LetThrough(a, FollowedPath(client, location)) && Required(a, "/" + n) == "user"
  {
    var cfg := Respelled(n, spelling);
    PathPartWhole("/" + spelling);
    PlaceOfName(n);
    PlaceOfName(spelling);
    RespelledAccepted(cfg, n, spelling);
    CompiledMeansConfig(cfg, a, "/" + n);
    assert Matches(cfg.rules[0], "/" + n) && cfg.rules[0] in RuleSet(cfg.rules);
    assert forall r <- RuleSet(cfg.rules) :: r == cfg.rules[0];
  }

  lemma RespelledAccepted(cfg: Config, n: string, shown: string)
    requires cfg.rules == [Rule("/" + n, "user")] && cfg.defaultLabel == "" && cfg.endpoints == map["user" := "/" + shown]
    requires n != shown && Place("/" + n) == [n] && Place("/" + ("/" + shown)) == [shown] && PathPart("/" + shown) == "/" + shown
    ensures RulesFine(cfg.rules) && EndpointsFine(cfg)
  {
    assert forall r <- RuleSet(cfg.rules) :: r == cfg.rules[0];
    assert [n][0] != [shown][0] && !([n] <= [shown]);
    assert !Matches(cfg.rules[0], "/" + shown);
  }

  lemma {:induction false} CutFragment(path: string, rest: string)
    requires '#' !in path && '?' !in path && rest != "" && rest[0] == '#'
    ensures BeforeQueryOrFragment(path + rest) == path
  {
    if path == "" {
      assert path + rest == rest;
    } else {
      assert path[0] in path && path == [path[0]] + path[1..];
      assert (path + rest)[0] == path[0] && (path + rest)[1..] == path[1..] + rest;
      CutFragment(path[1..], rest);
    }
  }

  /** A fragment loops: every name and every fragment, with any client that leaves the path alone. */
  lemma FragmentLoops(n: string, fragment: string, a: Compiled, back: string, client: Client)
    requires PlainName(n) && IsName(n + "#" + fragment) && '?' !in fragment && Compiles(Respelled(n, n + "#" + fragment), a)
    requires client("/" + n) == "/" + n
    ensures RulesFine(Respelled(n, n + "#" + fragment).rules) && EndpointsFine(Respelled(n, n + "#" + fragment))
    ensures !LetThrough(a, FollowedPath(client, Location(a, a.endpoints["user"], back)))
  {
    var rest := "#" + fragment + "?" + a.param + "=" + back;
    assert Location(a, "/" + (n + "#" + fragment), back) == ("/" + n) + rest;
    CutFragment("/" + n, rest);
    NothingToUnescape("/" + n);
    RespelledLoops(n, n + "#" + fragment, a, ("/" + n) + rest, client);
  }

  function Hex(d: int): char
    requires 0 <= d < 16
  {
    "0123456789ABCDEF"[d]
  }

  predicate AreBytes(s: string) { forall i :: 0 <= i < |s| ==> s[i] as int < 256 }

  function Escape(c: char): string
    requires c as int < 256
  {
    ['%', Hex(c as int / 16), Hex(c as int % 16)]
  }

  /** Every byte written as an escape. */
  function Escaped(s: string): string
    requires AreBytes(s)
  {
    if s == "" then "" else Escape(s[0]) + Escaped(s[1..])
  }

  lemma HexIsDigit(d: int)
    requires 0 <= d < 16
    ensures HexDigit(Hex(d)) == Some(d) && Hex(d) != '?' && Hex(d) != '#' && Hex(d) != '/' && Hex(d) != '%'
  {
  }

  lemma UnescapesOne(c: char, rest: string)
    requires c as int < 256
    ensures Unescape(Escape(c) + rest) == Prefixed(c, Unescape(rest)) && forall d <- Escape(c) :: d != '?' && d != '#' && d != '/'
  {
    var e, v := Escape(c) + rest, c as int;
    HexIsDigit(v / 16);
    HexIsDigit(v % 16);
    assert e[0] == '%' && e[1] == Hex(v / 16) && e[2] == Hex(v % 16) && e[3..] == rest;
    assert (v / 16 * 16 + v % 16) as char == c;
  }

  lemma {:induction false} UnescapesEscaped(s: string)
    requires AreBytes(s)
    ensures Unescape(Escaped(s)) == Some(s) && |Escaped(s)| == 3 * |s| && forall c <- Escaped(s) :: c != '?' && c != '#' && c != '/'
  {
    if s != "" {
      UnescapesEscaped(s[1..]);
      UnescapesOne(s[0], Escaped(s[1..]));
      assert s == [s[0]] + s[1..];
    }
  }

  /** An escape loops: every name of bytes, whatever its bytes are. The page "/é", bytes
      C3 and A9 behind the slash, loops through "/%C3%A9". */
  lemma EscapeLoops(n: string, a: Compiled, back: string, client: Client)
    requires IsName(n) && AreBytes(n) && Compiles(Respelled(n, Escaped(n)), a) && client("/" + Escaped(n)) == "/" + Escaped(n)
    ensures RulesFine(Respelled(n, Escaped(n)).rules) && EndpointsFine(Respelled(n, Escaped(n)))
    ensures !LetThrough(a, FollowedPath(client, Location(a, a.endpoints["user"], back)))
  {
    var e := Escaped(n);
    UnescapesEscaped(n);
    assert |e| > 2;
    var endpoint := "/" + e;
    SamePathFollowed(a, client, endpoint, back);
    NoFragment(endpoint);
    PathPartWhole(endpoint);
    assert endpoint[1..] == e && Unescape(endpoint) == Some("/" + n);
    RespelledLoops(n, e, a, Location(a, endpoint, back), client);
  }
}
