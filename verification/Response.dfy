/** What a backend response does to its session and to its own headers: the value
    computed by the response path, and what always holds of it. */
module Response {
  import opened Stores
  import opened Sessions
  import opened Manager
  import opened MaxAge
  import Labels
  import Authz

  // ---- headers --------------------------------------------------------------------------

  type Name = string

  const SET_COOKIE := "Set-Cookie"

  /** Header fields under canonical names, the names declared as trailers, and the
      fields set under the trailer prefix. */
  datatype Headers = Headers(fields: map<Name, seq<string>>, declared: seq<Name>, late: map<Name, seq<string>>)

  const BARE := Headers(map[], [], map[])

  function Values(h: Headers, n: Name): seq<string> { if n in h.fields then h.fields[n] else [] }

  function First(h: Headers, n: Name): string { if Values(h, n) == [] then "" else Values(h, n)[0] }

  function Del(h: Headers, n: Name): Headers { h.(fields := h.fields - {n}) }

  function Add(h: Headers, n: Name, v: string): Headers { h.(fields := h.fields[n := Values(h, n) + [v]]) }

  datatype Verdict = Drop | Forward | Keep

  datatype Cookie = Cookie(name: string, value: string, expires: Option<int>)

  /** How the site is set up. Parsing and building cookies stay abstract. */
  datatype Site = Site(
    identity: Name, rotate: Name, revoke: Name, labels: Name,
    rotateEnabled: bool, revokeEnabled: bool, failClosed: bool, synchronize: bool,
    decide: string -> Verdict, parse: string -> Option<Cookie>, proxyCookie: Id -> string, expiredCookie: string)

  /** The headers only the backend and the proxy talk through. */
  function Controls4(site: Site): set<Name> { {site.identity, site.rotate, site.revoke, site.labels} }

  function Managed(site: Site): set<Name> { {SET_COOKIE} + Controls4(site) }

  function Unmanaged(managed: set<Name>, names: seq<Name>): seq<Name> {
    if names == [] then []
    else Unmanaged(managed, names[..|names| - 1]) + if names[|names| - 1] in managed then [] else [names[|names| - 1]]
  }

  function ManagedAmong(managed: set<Name>, names: seq<Name>): set<Name> { set n | n in names && n in managed }

  /** Managed names leave the trailer declarations, with any values set for them. */
  function Stripped(site: Site, h: Headers): Headers {
    var managed := Managed(site);
    Headers(h.fields - ManagedAmong(managed, h.declared), Unmanaged(managed, h.declared), h.late - managed)
  }

  function Discarded(site: Site, h: Headers): Headers {
    var s := Stripped(site, h);
    s.(fields := s.fields - Managed(site))
  }

  /** Nothing managed is left. */
  ghost predicate Scrubbed(site: Site, h: Headers) {
    && (forall n <- Managed(site) :: n !in h.fields && n !in h.late)
    && (forall n <- h.declared :: n !in Managed(site))
  }

  /** A cookie the client may see: one the site forwards, or the proxy's own. */
  ghost predicate Presentable(site: Site, raw: string) {
    || (site.parse(raw).Some? && site.decide(site.parse(raw).value.name) == Forward)
    || raw == site.expiredCookie || exists k :: raw == site.proxyCookie(k)
  }

  /** Fit to leave the proxy: no control header, no managed trailer, no secret cookie. */
  ghost predicate Outward(site: Site, h: Headers) {
    && (forall n <- Controls4(site) :: n != SET_COOKIE ==> n !in h.fields)
    && (forall n <- Managed(site) :: n !in h.late)
    && (forall n <- h.declared :: n !in Managed(site))
    && (forall raw <- Values(h, SET_COOKIE) :: Presentable(site, raw))
  }

  lemma {:induction false} UnmanagedOnly(managed: set<Name>, names: seq<Name>)
    ensures forall n <- Unmanaged(managed, names) :: n !in managed
  {
    if names != [] { UnmanagedOnly(managed, names[..|names| - 1]); }
  }

  lemma DiscardedIsScrubbed(site: Site, h: Headers)
    ensures Scrubbed(site, Discarded(site, h)) && Outward(site, Discarded(site, h))
  {
    UnmanagedOnly(Managed(site), h.declared);
  }

  // ---- reading the controls ----------------------------------------------------------------

  function ParseBool(s: string): Option<bool> {
    if s in {"1", "t", "T", "TRUE", "true", "True"} then Some(true)
    else if s in {"0", "f", "F", "FALSE", "false", "False"} then Some(false) else None
  }

  const INT64_MAX := 0x7fff_ffff_ffff_ffff

  /** A positive 64-bit owner id; anything else binds nobody. */
  function ParseOwner(s: string): Option<int> {
    var digits := if s != "" && (s[0] == '+' || s[0] == '-') then s[1..] else s;
    if !IsNumeral(digits) || s[0] == '-' then None
    else var n: int := Numeral(digits); if 0 < n <= INT64_MAX then Some(n) else None
  }

  function JoinCommas(vs: seq<string>): string {
    if vs == [] then "" else if |vs| == 1 then vs[0] else vs[0] + "," + JoinCommas(vs[1..])
  }

  function Grantable(labels: seq<string>): seq<string> {
    if labels == [] then []
    else Grantable(labels[..|labels| - 1]) + if labels[|labels| - 1] == Authz.ANONYMOUS then [] else [labels[|labels| - 1]]
  }

  function LabelGrant(values: seq<string>): Option<seq<string>> {
    if values == [] then None else Some(Grantable(Labels.SplitLabels(JoinCommas(values))))
  }

  predicate WantsRevoke(site: Site, values: seq<string>) {
    site.revokeEnabled && exists raw <- values :: ParseBool(raw) == Some(true)
  }

  // ---- the transition ---------------------------------------------------------------------------

  /** The turns and fresh identifiers one response may use, and its readings of the
      clock: one for each cookie, one for a new session, one for the commit. */
  datatype Env = Env(clock: nat -> int, born: int, now: int, sid: Option<Id>, key: Option<Id>, mint: Option<Id>,
                     put: Turn, bind: Turn, read: Turn, commit: Turn, delete: Turn, locked: bool)

  predicate DeletesNow(raw: string, c: Cookie, now: int) {
    match LastMaxAge(Split(raw, ';')[1..])
    case Some(age) => age <= 0
    case None => c.expires.Some? && c.expires.value <= now
  }

  /** The cookie loop so far. */
  datatype Sift = Sift(header: Headers, writes: seq<CookieWrite>, live: Option<Handle>, steps: seq<Own>, failed: bool)

  function WithLive(cfg: Config, env: Env, s: Sift): Sift {
    if s.live.Some? then s
    else
      var b := Beginning(cfg, env.born, env.sid, env.key, env.put, env.bind);
      s.(live := b.live, steps := s.steps + b.steps, failed := b.failed)
  }

  function SiftOne(site: Site, cfg: Config, env: Env, s: Sift, raw: string, now: int): Sift {
    var parsed := site.parse(raw);
    if parsed.None? then s
    else
      var c := parsed.value;
      match site.decide(c.name)
      case Forward => s.(header := Add(s.header, SET_COOKIE, raw))
      case Drop => s
      case Keep =>
        if DeletesNow(raw, c, now) then
          if s.live.Some? then s.(writes := s.writes + [CookieWrite(c.name, "", true)]) else s
        else
          var l := WithLive(cfg, env, s);
          if l.failed then l else l.(writes := l.writes + [CookieWrite(c.name, c.value, false)])
  }

  function SiftAll(site: Site, cfg: Config, env: Env, s: Sift, raws: seq<string>): Sift {
    if raws == [] then s
    else
      var t := SiftAll(site, cfg, env, s, raws[..|raws| - 1]);
      if t.failed then t else SiftOne(site, cfg, env, t, raws[|raws| - 1], env.clock(|raws| - 1))
  }

  /** What came of the response path. */
  datatype Reply = Reply(header: Headers, live: Option<Handle>, steps: seq<Own>, failed: bool)

  function Bare(site: Site, h: Headers): Headers { Del(Del(Del(h, site.identity), site.rotate), site.labels) }

  function Revoking(site: Site, env: Env, live: Option<Handle>, hadCookie: bool, h: Headers, own: seq<Own>): Reply {
    var bare := Bare(site, h);
    var out := if hadCookie then Add(bare, SET_COOKIE, site.expiredCookie) else bare;
    if live.None? then Reply(out, None, own, false)
    else
      var step := Made(env.delete, Delete(env.delete.seen, live.value.sid));
      if env.delete.fails then Reply(bare, live, own + [step], true) else Reply(out, None, own + [step], false)
  }

  function Committing(site: Site, cfg: Config, env: Env, s: Sift, ask: Ask): Reply {
    var l := if s.live.None? && (ask.owner.Some? || (ask.labels.Some? && ask.labels.value != [])) then WithLive(cfg, env, s) else s;
    if l.failed || l.live.None? then Reply(l.header, l.live, l.steps, l.failed)
    else
      var a := Tried(cfg, l.live.value, ask, env.now, env.mint, env.read, env.commit);
      if a.result != Done then Reply(l.header, Some(a.handle), l.steps + a.steps, true)
      else Reply(if a.handle.rewrite then Add(l.header, SET_COOKIE, site.proxyCookie(a.handle.newKey)) else l.header,
                 Some(a.handle), l.steps + a.steps, false)
  }

  /** What the headers ask for. Each control is removed before the next is read. */
  function Asked(site: Site, h: Headers, writes: seq<CookieWrite>): Ask {
    var one, two := Del(h, site.identity), Del(Del(h, site.identity), site.rotate);
    Ask(ParseOwner(First(h, site.identity)), LabelGrant(Values(two, site.labels)),
        site.rotateEnabled && ParseBool(First(one, site.rotate)) == Some(true), true, writes)
  }

  /** The response path under its lock; `own` are the request's steps so far. */
  function Respond(site: Site, cfg: Config, env: Env, live: Option<Handle>, hadCookie: bool, revoke: bool, header: Headers, own: seq<Own>): Reply {
    var raws := Values(header, SET_COOKIE);
    var h := Del(header, SET_COOKIE);
    if revoke then Revoking(site, env, live, hadCookie, h, own)
    else
      var s := SiftAll(site, cfg, env, Sift(Bare(site, h), [], live, own, false), raws);
      if s.failed then Reply(s.header, s.live, s.steps, true)
      else Committing(site, cfg, env, s, Asked(site, h, s.writes))
  }

  /** The once-only processing of a response, with its clean-up on any failure. */
  datatype Processed = Processed(header: Headers, live: Option<Handle>, steps: seq<Own>, revoke: bool, failed: bool, answer502: bool)

  /** The transition, unless an unresolved session or a refused lock rules it out. */
  function Transit(site: Site, cfg: Config, env: Env, live: Option<Handle>, hadCookie: bool, resolveFailed: bool, revoke: bool, h: Headers, own: seq<Own>): Reply {
    if (revoke && resolveFailed) || (live.Some? && site.synchronize && !env.locked) then Reply(h, live, own, true)
    else Respond(site, cfg, env, live, hadCookie, revoke, h, own)
  }

  function Process(site: Site, cfg: Config, env: Env, live: Option<Handle>, hadCookie: bool, resolveFailed: bool, header: Headers, own: seq<Own>): Processed {
    var stripped := Stripped(site, header);
    var revoke := WantsRevoke(site, Values(stripped, site.revoke));
    Swept(site, revoke, Transit(site, cfg, env, live, hadCookie, resolveFailed, revoke, Del(stripped, site.revoke), own))
  }

  function Swept(site: Site, revoke: bool, r: Reply): Processed {
    if !r.failed then Processed(r.header, r.live, r.steps, revoke, false, false)
    else Processed(r.header.(fields := r.header.fields - Managed(site)), r.live, r.steps, revoke, true, site.failClosed || revoke)
  }

  // ---- earlier steps stay in front ------------------------------------------------------------

  function Behind(own: seq<Own>, s: Sift): Sift { s.(steps := own + s.steps) }

  lemma SiftOneExtends(site: Site, cfg: Config, env: Env, s: Sift, raw: string, now: int, own: seq<Own>)
    ensures SiftOne(site, cfg, env, Behind(own, s), raw, now) == Behind(own, SiftOne(site, cfg, env, s, raw, now))
  {
  }

  lemma {:induction false} SiftExtends(site: Site, cfg: Config, env: Env, s: Sift, raws: seq<string>, own: seq<Own>)
    ensures SiftAll(site, cfg, env, Behind(own, s), raws) == Behind(own, SiftAll(site, cfg, env, s, raws))
  {
    if raws != [] {
      SiftExtends(site, cfg, env, s, raws[..|raws| - 1], own);
      SiftOneExtends(site, cfg, env, SiftAll(site, cfg, env, s, raws[..|raws| - 1]), raws[|raws| - 1], env.clock(|raws| - 1), own);
    }
  }

  lemma CommittingExtends(site: Site, cfg: Config, env: Env, s: Sift, ask: Ask, own: seq<Own>)
    ensures var r := Committing(site, cfg, env, s, ask);
            Committing(site, cfg, env, Behind(own, s), ask) == r.(steps := own + r.steps)
  {
    var b := Beginning(cfg, env.born, env.sid, env.key, env.put, env.bind);
    assert own + s.steps + b.steps == own + (s.steps + b.steps);
    var l := if s.live.None? && (ask.owner.Some? || (ask.labels.Some? && ask.labels.value != [])) then WithLive(cfg, env, s) else s;
    if !l.failed && l.live.Some? {
      var a := Tried(cfg, l.live.value, ask, env.now, env.mint, env.read, env.commit);
      assert own + l.steps + a.steps == own + (l.steps + a.steps);
    }
  }

  lemma RespondExtends(site: Site, cfg: Config, env: Env, live: Option<Handle>, hadCookie: bool, revoke: bool, header: Headers, own: seq<Own>)
    ensures var r := Respond(site, cfg, env, live, hadCookie, revoke, header, []);
            Respond(site, cfg, env, live, hadCookie, revoke, header, own) == r.(steps := own + r.steps)
  {
    if !revoke {
      var h := Del(header, SET_COOKIE);
      var s0 := Sift(Bare(site, h), [], live, [], false);
      SiftExtends(site, cfg, env, s0, Values(header, SET_COOKIE), own);
      assert Behind(own, s0).steps == own;
      var s := SiftAll(site, cfg, env, s0, Values(header, SET_COOKIE));
      CommittingExtends(site, cfg, env, s, Asked(site, h, s.writes), own);
    }
  }

  /** What a response does depends on the request's earlier steps in nothing. */
  lemma ProcessExtends(site: Site, cfg: Config, env: Env, live: Option<Handle>, hadCookie: bool, resolveFailed: bool, header: Headers, own: seq<Own>)
    ensures var p := Process(site, cfg, env, live, hadCookie, resolveFailed, header, []);
            Process(site, cfg, env, live, hadCookie, resolveFailed, header, own) == p.(steps := own + p.steps)
  {
    var stripped := Stripped(site, header);
    var revoke, h := WantsRevoke(site, Values(stripped, site.revoke)), Del(stripped, site.revoke);
    TransitExtends(site, cfg, env, live, hadCookie, resolveFailed, revoke, h, own);
  }

  lemma TransitExtends(site: Site, cfg: Config, env: Env, live: Option<Handle>, hadCookie: bool, resolveFailed: bool, revoke: bool, h: Headers, own: seq<Own>)
    ensures var r := Transit(site, cfg, env, live, hadCookie, resolveFailed, revoke, h, []);
            Transit(site, cfg, env, live, hadCookie, resolveFailed, revoke, h, own) == r.(steps := own + r.steps)
  {
    RespondExtends(site, cfg, env, live, hadCookie, revoke, h, own);
    assert own + [] == own;
  }

  // ---- nothing managed leaves ---------------------------------------------------------------

  /** Stripped of trailers; every visible cookie is presentable. */
  ghost predicate Fit(site: Site, h: Headers) {
    && (forall n <- Managed(site) :: n !in h.late)
    && (forall n <- h.declared :: n !in Managed(site))
    && (forall raw <- Values(h, SET_COOKIE) :: Presentable(site, raw))
  }

  /** Headers that differ in their cookies only. */
  predicate SameBut(a: Headers, b: Headers) {
    a.fields - {SET_COOKIE} == b.fields - {SET_COOKIE} && a.declared == b.declared && a.late == b.late
  }

  lemma AddFit(site: Site, h: Headers, raw: string)
    requires Fit(site, h) && Presentable(site, raw)
    ensures Fit(site, Add(h, SET_COOKIE, raw)) && SameBut(h, Add(h, SET_COOKIE, raw))
  {
  }

  lemma {:induction false} SiftFit(site: Site, cfg: Config, env: Env, s: Sift, raws: seq<string>)
    requires Fit(site, s.header)
    ensures Fit(site, SiftAll(site, cfg, env, s, raws).header) && SameBut(s.header, SiftAll(site, cfg, env, s, raws).header)
  {
    if raws != [] {
      SiftFit(site, cfg, env, s, raws[..|raws| - 1]);
      var t, raw := SiftAll(site, cfg, env, s, raws[..|raws| - 1]), raws[|raws| - 1];
      if site.parse(raw).Some? && site.decide(site.parse(raw).value.name) == Forward {
        AddFit(site, t.header, raw);
      }
    }
  }

  lemma CommittingFit(site: Site, cfg: Config, env: Env, s: Sift, ask: Ask)
    requires Fit(site, s.header)
    ensures Fit(site, Committing(site, cfg, env, s, ask).header) && SameBut(s.header, Committing(site, cfg, env, s, ask).header)
  {
    var r := Committing(site, cfg, env, s, ask);
    if r.header != s.header {
      AddFit(site, s.header, site.proxyCookie(r.live.value.newKey));
    }
  }

  lemma RespondFit(site: Site, cfg: Config, env: Env, live: Option<Handle>, hadCookie: bool, revoke: bool, header: Headers)
    requires (forall n <- Managed(site) :: n !in header.late) && (forall n <- header.declared :: n !in Managed(site))
    requires site.revoke !in header.fields
    ensures Outward(site, Respond(site, cfg, env, live, hadCookie, revoke, header, []).header)
  {
    var bare := Bare(site, Del(header, SET_COOKIE));
    assert Fit(site, bare);
    var r := Respond(site, cfg, env, live, hadCookie, revoke, header, []);
    if revoke {
      AddFit(site, bare, site.expiredCookie);
    } else {
      var s := SiftAll(site, cfg, env, Sift(bare, [], live, [], false), Values(header, SET_COOKIE));
      SiftFit(site, cfg, env, Sift(bare, [], live, [], false), Values(header, SET_COOKIE));
      if !s.failed {
        var h := Del(header, SET_COOKIE);
        CommittingFit(site, cfg, env, s, Asked(site, h, s.writes));
      }
    }
    OutwardFrom(site, bare, r.header);
  }

  lemma OutwardFrom(site: Site, bare: Headers, h: Headers)
    requires SameBut(bare, h) && Fit(site, h) && forall n <- Controls4(site) :: n !in bare.fields
    ensures Outward(site, h)
  {
    forall n | n in Controls4(site) && n != SET_COOKIE ensures n !in h.fields {
      assert n in h.fields <==> n in h.fields - {SET_COOKIE};
      assert n in bare.fields <==> n in bare.fields - {SET_COOKIE};
    }
  }

  /** Whatever a response asks for and whatever fails, what is left of its headers is
      fit to leave: no control header, no managed trailer, no store-listed cookie. */
  lemma NothingManagedLeaves(site: Site, cfg: Config, env: Env, live: Option<Handle>, hadCookie: bool, resolveFailed: bool, header: Headers)
    ensures Outward(site, Process(site, cfg, env, live, hadCookie, resolveFailed, header, []).header)
    ensures var p := Process(site, cfg, env, live, hadCookie, resolveFailed, header, []); p.failed ==> SET_COOKIE !in p.header.fields
  {
    var stripped := Stripped(site, header);
    var revoke, h := WantsRevoke(site, Values(stripped, site.revoke)), Del(stripped, site.revoke);
    StrippedOnly(site, header);
    RespondFit(site, cfg, env, live, hadCookie, revoke, h);
    RespondTrailers(site, cfg, env, live, hadCookie, revoke, h);
    SweptIsFit(site, revoke, Transit(site, cfg, env, live, hadCookie, resolveFailed, revoke, h, []));
  }

  /** The clean-up leaves a fit header of any that has its trailers stripped. */
  lemma SweptIsFit(site: Site, revoke: bool, r: Reply)
    requires (forall n <- Managed(site) :: n !in r.header.late) && (forall n <- r.header.declared :: n !in Managed(site))
    requires !r.failed ==> Outward(site, r.header)
    ensures var p := Swept(site, revoke, r); Outward(site, p.header) && (p.failed ==> SET_COOKIE !in p.header.fields)
  {
  }

  lemma StrippedOnly(site: Site, header: Headers)
    ensures var s := Stripped(site, header);
            (forall n <- Managed(site) :: n !in s.late) && (forall n <- s.declared :: n !in Managed(site))
  {
    UnmanagedOnly(Managed(site), header.declared);
  }

  lemma RespondTrailers(site: Site, cfg: Config, env: Env, live: Option<Handle>, hadCookie: bool, revoke: bool, header: Headers)
    ensures var r := Respond(site, cfg, env, live, hadCookie, revoke, header, []); r.header.declared == header.declared && r.header.late == header.late
  {
    var bare := Bare(site, Del(header, SET_COOKIE));
    SiftTrailers(site, cfg, env, Sift(bare, [], live, [], false), Values(header, SET_COOKIE));
  }

  lemma {:induction false} SiftTrailers(site: Site, cfg: Config, env: Env, s: Sift, raws: seq<string>)
    ensures var t := SiftAll(site, cfg, env, s, raws); t.header.declared == s.header.declared && t.header.late == s.header.late
  {
    if raws != [] { SiftTrailers(site, cfg, env, s, raws[..|raws| - 1]); }
  }

  // ---- the cookies a client sees ------------------------------------------------------------------

  predicate IsForwarded(site: Site, raw: string) { site.parse(raw).Some? && site.decide(site.parse(raw).value.name) == Forward }

  function Forwarded(site: Site, raws: seq<string>): seq<string> {
    if raws == [] then [] else Forwarded(site, raws[..|raws| - 1]) + if IsForwarded(site, raws[|raws| - 1]) then [raws[|raws| - 1]] else []
  }

  lemma {:induction false} SiftForwards(site: Site, cfg: Config, env: Env, s: Sift, raws: seq<string>)
    ensures var t := SiftAll(site, cfg, env, s, raws); !t.failed ==> Values(t.header, SET_COOKIE) == Values(s.header, SET_COOKIE) + Forwarded(site, raws)
  {
    if raws != [] { SiftForwards(site, cfg, env, s, raws[..|raws| - 1]); }
  }

  /** What a client may be told about its key: a pending one is announced. */
  function Announcing(site: Site, live: Option<Handle>): seq<string> {
    if live.Some? && live.value.rewrite then [site.proxyCookie(live.value.newKey)] else []
  }

  /** The cookies a response leaves with: those the site forwards, unchanged and in order,
      and then at most the one that announces the session's pending key; after a
      revocation the one that expires the client's key; after a failure none. */
  function Shown(site: Site, hadCookie: bool, header: Headers, p: Processed): seq<string> {
    if p.failed then []
    else if p.revoke then (if hadCookie then [site.expiredCookie] else [])
    else Forwarded(site, Values(Del(Stripped(site, header), site.revoke), SET_COOKIE)) + Announcing(site, p.live)
  }

  lemma CookiesAreExact(site: Site, cfg: Config, env: Env, live: Option<Handle>, hadCookie: bool, resolveFailed: bool, header: Headers)
    ensures var p := Process(site, cfg, env, live, hadCookie, resolveFailed, header, []);
            Values(p.header, SET_COOKIE) == Shown(site, hadCookie, header, p)
  {
    var h := Del(Stripped(site, header), site.revoke);
    var revoke := WantsRevoke(site, Values(Stripped(site, header), site.revoke));
    RespondCookies(site, cfg, env, live, hadCookie, revoke, h);
  }

  lemma RespondCookies(site: Site, cfg: Config, env: Env, live: Option<Handle>, hadCookie: bool, revoke: bool, header: Headers)
    ensures var r := Respond(site, cfg, env, live, hadCookie, revoke, header, []);
            r.failed || Values(r.header, SET_COOKIE) ==
                        if revoke then (if hadCookie then [site.expiredCookie] else [])
                        else Forwarded(site, Values(header, SET_COOKIE)) + Announcing(site, r.live)
  {
    if !revoke {
      var h := Del(header, SET_COOKIE);
      var s0 := Sift(Bare(site, h), [], live, [], false);
      SiftForwards(site, cfg, env, s0, Values(header, SET_COOKIE));
      assert Values(s0.header, SET_COOKIE) == [];
      var s := SiftAll(site, cfg, env, s0, Values(header, SET_COOKIE));
      CommittingCookies(site, cfg, env, s, Asked(site, h, s.writes));
    }
  }

  lemma CommittingCookies(site: Site, cfg: Config, env: Env, s: Sift, ask: Ask)
    ensures var r := Committing(site, cfg, env, s, ask);
            !r.failed ==> Values(r.header, SET_COOKIE) == Values(s.header, SET_COOKIE) + Announcing(site, r.live)
  {
  }

  // ---- nobody is stranded -------------------------------------------------------------------------

  /** The step leaves the key's mapping as it is. */
  predicate KeepsKey(o: Own, k: Id) {
    (k in o.before.keys <==> k in o.after.keys) && (k in o.before.keys ==> o.after.keys[k] == o.before.keys[k])
  }

  predicate AllKeep(steps: seq<Own>, k: Id) { forall o <- steps :: KeepsKey(o, k) }

  lemma BeginningKeeps(cfg: Config, env: Env, k: Id)
    requires env.key != Some(k)
    ensures AllKeep(Beginning(cfg, env.born, env.sid, env.key, env.put, env.bind).steps, k)
  {
  }

  lemma {:induction false} SiftKeeps(site: Site, cfg: Config, env: Env, s: Sift, raws: seq<string>, k: Id)
    requires env.key != Some(k) && AllKeep(s.steps, k)
    ensures var t := SiftAll(site, cfg, env, s, raws);
            && AllKeep(t.steps, k) && (s.live.Some? ==> t.live == s.live && t.steps == s.steps)
            && (s.live.None? && t.live.Some? ==> t.live.value == BeginHandle(t.live.value.sid, t.live.value.key) && env.key == Some(t.live.value.key))
  {
    if raws != [] {
      SiftKeeps(site, cfg, env, s, raws[..|raws| - 1], k);
      BeginningKeeps(cfg, env, k);
    }
  }

  /** The swap this response made: the old key is gone, the new one leads to the session. */
  predicate Swaps(o: Own, k: Id, sid: Id, newKey: Id) {
    k in o.before.keys && k !in o.after.keys && newKey in o.after.keys && o.after.keys[newKey] == sid
  }

  /** A commit keeps the key or swaps it for the new one. */
  lemma CommitKeeps(t: Turn, sid: Id, c: Controls, k: Id)
    requires !(c.rotate && c.newKey == k) && (c.rotate ==> c.oldKey == k)
    ensures var o := Made(t, Apply(t.seen, sid, c).0);
            KeepsKey(o, k) || (c.rotate && Result(t, Apply(t.seen, sid, c).1) == Done && Swaps(o, k, sid, c.newKey))
  {
  }

  lemma TriedKeeps(cfg: Config, h: Handle, ask: Ask, env: Env, k: Id)
    requires env.mint != Some(k) && (h.key == k || h.rewrite)
    ensures var a := Tried(cfg, h, ask, env.now, env.mint, env.read, env.commit);
            || (AllKeep(a.steps, k) && (a.result == Done ==> a.handle.key == h.key))
            || (a.result == Done && !h.rewrite && |a.steps| == 2 && Idle(a.steps[0]) && a.handle.rewrite && a.handle.newKey == a.handle.key
                && Swaps(a.steps[1], k, h.sid, a.handle.newKey))
  {
    if !env.read.fails && h.sid in env.read.seen.sessions {
      var c := Decide(cfg, h, env.read.seen.sessions[h.sid], env.now, ask, MintedOr(env.mint));
      if !NothingToDo(c) && !(c.rotate && env.mint.None?) { CommitKeeps(env.commit, h.sid, c, k); }
    }
  }

  predicate KeyIsSafe(site: Site, live: Option<Handle>, p: Processed, k: Id) {
    || AllKeep(p.steps, k)
    || (!p.failed && !p.revoke && live.Some? && p.live.Some?
        && |p.steps| == 2 && Idle(p.steps[0]) && Swaps(p.steps[1], k, live.value.sid, p.live.value.newKey)
        && site.proxyCookie(p.live.value.newKey) in Values(p.header, SET_COOKIE))
    || (!p.failed && p.revoke && live.Some? && p.live.None? && site.expiredCookie in Values(p.header, SET_COOKIE))
  }

  /** No client is stranded: every own step of a response keeps the presented key, or
      the response succeeds and its last step, the only one to touch the key, swaps it
      for the key announced in the committed headers, or the response is a successful
      revocation that expires the client's cookie. */
  lemma NobodyIsStranded(site: Site, cfg: Config, env: Env, live: Option<Handle>, hadCookie: bool, resolveFailed: bool, header: Headers, k: Id)
    requires env.key != Some(k) && env.mint != Some(k)
    requires live.Some? ==> live.value.key == k && !live.value.rewrite && hadCookie
    ensures KeyIsSafe(site, live, Process(site, cfg, env, live, hadCookie, resolveFailed, header, []), k)
  {
    var stripped := Stripped(site, header);
    var revoke := WantsRevoke(site, Values(stripped, site.revoke));
    RespondStrandsNobody(site, cfg, env, live, hadCookie, revoke, Del(stripped, site.revoke), k);
  }

  lemma RespondStrandsNobody(site: Site, cfg: Config, env: Env, live: Option<Handle>, hadCookie: bool, revoke: bool, header: Headers, k: Id)
    requires env.key != Some(k) && env.mint != Some(k)
    requires live.Some? ==> live.value.key == k && !live.value.rewrite && hadCookie
    ensures var r := Respond(site, cfg, env, live, hadCookie, revoke, header, []);
            || AllKeep(r.steps, k)
            || (!r.failed && !revoke && live.Some? && r.live.Some?
                && |r.steps| == 2 && Idle(r.steps[0]) && Swaps(r.steps[1], k, live.value.sid, r.live.value.newKey)
                && site.proxyCookie(r.live.value.newKey) in Values(r.header, SET_COOKIE))
            || (!r.failed && revoke && live.Some? && r.live.None? && site.expiredCookie in Values(r.header, SET_COOKIE))
  {
    if !revoke {
      var h := Del(header, SET_COOKIE);
      var s0 := Sift(Bare(site, h), [], live, [], false);
      var s := SiftAll(site, cfg, env, s0, Values(header, SET_COOKIE));
      SiftKeeps(site, cfg, env, s0, Values(header, SET_COOKIE), k);
      if !s.failed {
        CommittingKeeps(site, cfg, env, s, Asked(site, h, s.writes), k);
      }
    }
  }

  lemma CommittingKeeps(site: Site, cfg: Config, env: Env, s: Sift, ask: Ask, k: Id)
    requires env.key != Some(k) && env.mint != Some(k) && AllKeep(s.steps, k) && !s.failed
    requires s.live.Some? ==> s.live.value.rewrite || (s.live.value.key == k && s.steps == [])
    ensures var r := Committing(site, cfg, env, s, ask);
            || AllKeep(r.steps, k)
            || (!r.failed && s.live.Some? && r.live.Some? && !s.live.value.rewrite
                && |r.steps| == 2 && Idle(r.steps[0]) && Swaps(r.steps[1], k, s.live.value.sid, r.live.value.newKey)
                && site.proxyCookie(r.live.value.newKey) in Values(r.header, SET_COOKIE))
  {
    BeginningKeeps(cfg, env, k);
    var l := if s.live.None? && (ask.owner.Some? || (ask.labels.Some? && ask.labels.value != [])) then WithLive(cfg, env, s) else s;
    assert AllKeep(l.steps, k);
    if !l.failed && l.live.Some? {
      TriedKeeps(cfg, l.live.value, ask, env, k);
      var a := Tried(cfg, l.live.value, ask, env.now, env.mint, env.read, env.commit);
      assert l.steps == [] ==> l.steps + a.steps == a.steps;
    }
  }

  /** The one step deleted the session, with every key that led to it. */
  ghost predicate Erases(steps: seq<Own>, sid: Id) {
    && |steps| == 1 && steps[0].after == Delete(steps[0].before, sid) && sid !in steps[0].after.sessions
    && forall q <- steps[0].after.keys :: steps[0].after.keys[q] != sid
  }

  /** A revocation a backend asked for is carried out or answered 502, in both failure
      modes; when carried out, the session is gone with everything that belongs to it. */
  lemma RevocationIsHonest(site: Site, cfg: Config, env: Env, live: Option<Handle>, hadCookie: bool, resolveFailed: bool, header: Headers)
    requires WantsRevoke(site, Values(Stripped(site, header), site.revoke))
    ensures var p := Process(site, cfg, env, live, hadCookie, resolveFailed, header, []);
            && p.revoke && (p.answer502 <==> p.failed) && (resolveFailed ==> p.answer502)
            && (p.failed ==> forall o <- p.steps :: Idle(o))
            && (!p.failed && live.Some? ==> Erases(p.steps, live.value.sid))
  {
  }
}
